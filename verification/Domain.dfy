/** The shared vocabulary of axiomgate_kernel/domain.py, with the Option type the other modules use
    where the source uses None. */
module Domain {

  datatype Option<+T> = None | Some(value: T)
  {
    function GetOr(default: T): T {
      if Some? then value else default
    }
  }

  const OWNER := "owner"

  datatype Action = Inspect | Propose | Execute | Verify | Commit

  datatype Risk = Low | Medium | High
  {
    function Rank(): nat {
      match this
      case Low => 0
      case Medium => 1
      case High => 2
    }

    predicate Exceeds(ceiling: Risk) {
      Rank() > ceiling.Rank()
    }
  }

  datatype Role = REng | RIv | RDec

  datatype Verdict = Permit | Deny | Escalate

  /** Actions that always need an Owner decision when the principal is not the Owner. */
  predicate OwnerMandatoryAction(a: Action) {
    a == Commit
  }
}

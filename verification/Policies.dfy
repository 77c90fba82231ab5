/** The policy snapshot of axiomgate_kernel/policy.py: what blocks every PERMIT. */
module Policies {
  import opened Domain
  import opened JsonValues
  import Text

  datatype Policy = Policy(version: string, body: Fields, hash: string, readable: bool)
  {
    /** Unreadable, without a hash, a placeholder, or no longer the body that was hashed. */
    predicate BlocksPermit(sha: Fields -> string) {
      !readable || Text.Blank(hash) || AllZeroDigest(hash) || !JObj(body).Finite() || hash != Digest(sha, body)
    }
  }

  function Digest(sha: Fields -> string, body: Fields): string {
    "sha256:" + sha(body)
  }

  function FromBody(sha: Fields -> string, version: string, body: Fields): Policy {
    Policy(version, body, Digest(sha, body), true)
  }

  function AfterLastColon(s: string): string {
    if s == "" then ""
    else if s[|s| - 1] == ':' then ""
    else AfterLastColon(s[..|s| - 1]) + [s[|s| - 1]]
  }

  predicate AllZeroDigest(value: string) {
    Text.Blank(value) || forall i | 0 <= i < |Text.Strip(AfterLastColon(value))| :: Text.Strip(AfterLastColon(value))[i] == '0'
  }

  lemma {:induction false} AfterLastColonOfJoin(a: string, b: string)
    requires ':' !in b
    ensures AfterLastColon(a + ":" + b) == b
  {
    var s := a + ":" + b;
    if b == "" {
      assert s[|s| - 1] == ':';
    } else {
      assert s[..|s| - 1] == a + ":" + b[..|b| - 1];
      AfterLastColonOfJoin(a, b[..|b| - 1]);
    }
  }

  lemma {:induction false} StripLeftKeeps(s: string, c: char)
    requires c in s && !Text.IsSpace(c)
    ensures c in Text.StripLeft(s)
  {
    if Text.IsSpace(s[0]) {
      assert s == [s[0]] + s[1..];
      StripLeftKeeps(s[1..], c);
    }
  }

  lemma {:induction false} StripRightKeeps(s: string, c: char)
    requires c in s && !Text.IsSpace(c)
    ensures c in Text.StripRight(s)
  {
    var n := |s| - 1;
    if Text.IsSpace(s[n]) {
      assert s == s[..n] + [s[n]];
      StripRightKeeps(s[..n], c);
    }
  }

  /** A policy freshly made from a finite body never blocks, whatever the body, unless its digest is all zeros. */
  lemma FreshPolicyServes(sha: Fields -> string, version: string, body: Fields, c: char)
    requires JObj(body).Finite() && ':' !in sha(body)
    requires c in sha(body) && c != '0' && !Text.IsSpace(c)
    ensures !FromBody(sha, version, body).BlocksPermit(sha)
  {
    var hash := Digest(sha, body);
    assert hash == "sha256" + ":" + sha(body);
    AfterLastColonOfJoin("sha256", sha(body));
    StripLeftKeeps(sha(body), c);
    StripRightKeeps(Text.StripLeft(sha(body)), c);
    assert hash[0] == 's' && !Text.Blank(hash);
    var digits := Text.Strip(AfterLastColon(hash));
    assert AfterLastColon(hash) == sha(body) && c in digits;
    var i :| 0 <= i < |digits| && digits[i] == c;
    assert !AllZeroDigest(hash);
  }

  /** A digest as sha256_hex writes it: no colon, no white space. */
  predicate Plain(digest: string) {
    forall i | 0 <= i < |digest| :: digest[i] != ':' && !Text.IsSpace(digest[i])
  }

  /** A policy serves exactly when it is readable, its body is canonical, its hash is that of its body, and the digest
      is not all zeros. */
  lemma ServesExactlyWhen(sha: Fields -> string, p: Policy)
    requires Plain(sha(p.body))
    ensures !p.BlocksPermit(sha) <==>
            && p.readable && JObj(p.body).Finite() && p.hash == "sha256:" + sha(p.body)
            && exists i :: 0 <= i < |sha(p.body)| && sha(p.body)[i] != '0'
  {
    var digest := sha(p.body);
    if p.hash == "sha256:" + digest {
      assert p.hash == "sha256" + ":" + digest;
      AfterLastColonOfJoin("sha256", digest);
      assert Text.Strip(digest) == digest;
      assert p.hash[0] == 's' && !Text.Blank(p.hash);
    }
  }

  /** A policy that does not block is bound to its body: under a collision-free hash, two such policies with the
      same hash have the same body. */
  lemma ServingPolicyIsBound(sha: Fields -> string, p: Policy, q: Policy)
    requires forall a, b :: JObj(a).Finite() && JObj(b).Finite() && sha(a) == sha(b) ==> a == b
    requires !p.BlocksPermit(sha) && !q.BlocksPermit(sha) && p.hash == q.hash
    ensures p.body == q.body
  {
    assert p.hash[7..] == sha(p.body) && q.hash[7..] == sha(q.body);
  }
}

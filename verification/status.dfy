/**
 * The proposal storage record status: the closed code enumeration PSRStatusT,
 * its display-name table and the one-way rule for moving between codes.
 */
module Status {
  import opened Wrappers

  /** The four status codes a proposal storage record can carry. */
  datatype PsrStatus = Invalid | Unvetted | Vetted | Censored
  {
    /** The integer code the status is stored as. */
    function Code(): (c: int)
      ensures 0 <= c <= 3
    {
      match this
      case Invalid => 0
      case Unvetted => 1
      case Vetted => 2
      case Censored => 3
    }

    /** The human-readable name of the status, one per constructor. */
    function Name(): (n: string)
      ensures Code() in PsrStatusNames && PsrStatusNames[Code()] == n
    {
      match this
      case Invalid => "invalid"
      case Unvetted => "unvetted"
      case Vetted => "vetted"
      case Censored => "censored"
    }
  }

  /** Reads a PSRStatusT integer back as a status; only the four codes 0..3 exist. */
  function FromCode(c: int): (r: Option<PsrStatus>)
    ensures r.Some? <==> 0 <= c <= 3
    ensures r.Some? ==> r.value.Code() == c
  {
    if c == 0 then Some(Invalid)
    else if c == 1 then Some(Unvetted)
    else if c == 2 then Some(Vetted)
    else if c == 3 then Some(Censored)
    else None
  }

  /** Every status survives the trip through its integer code, and distinct statuses have distinct codes. */
  lemma CodeRoundTrip(s: PsrStatus, t: PsrStatus)
    ensures FromCode(s.Code()) == Some(s)
    ensures s.Code() == t.Code() ==> s == t
  {
  }

  /** The table that converts a status code to its human-readable name. */
  const PsrStatusNames: map<int, string> :=
    map[0 := "invalid", 1 := "unvetted", 2 := "vetted", 3 := "censored"]

  /**
   * The name table has a key for each of the four codes and for nothing else,
   * it agrees with Name(), and no two statuses share a name.
   */
  lemma NameTableMatchesEnumeration()
    ensures forall c :: c in PsrStatusNames <==> FromCode(c).Some?
    ensures forall s: PsrStatus :: s.Code() in PsrStatusNames && PsrStatusNames[s.Code()] == s.Name()
    ensures forall s: PsrStatus, t: PsrStatus :: s.Name() == t.Name() ==> s == t
  {
  }

  /**
   * The transition rule: the only legal moves are unvetted to vetted and
   * unvetted to censored.
   */
  predicate IsValidTransition(from: PsrStatus, to: PsrStatus)
    ensures IsValidTransition(from, to) ==> from == Unvetted && from != to && IsFinal(to)
    ensures from == Unvetted && IsFinal(to) ==> IsValidTransition(from, to)
  {
    from == Unvetted && (to == Vetted || to == Censored)
  }

  /** A decision is final: vetted and censored records never move again. */
  predicate IsFinal(s: PsrStatus)
  {
    s == Vetted || s == Censored
  }

  /**
   * Consequences of the rule: no self-transition is legal, nothing leaves
   * invalid, vetted or censored, nothing enters invalid or unvetted, and every
   * legal move ends in a final status.
   */
  lemma TransitionRule(from: PsrStatus, to: PsrStatus)
    ensures !IsValidTransition(from, from)
    ensures from != Unvetted ==> !IsValidTransition(from, to)
    ensures to == Invalid || to == Unvetted ==> !IsValidTransition(from, to)
    ensures IsValidTransition(from, to) ==> IsFinal(to)
    ensures IsValidTransition(from, to) <==> from == Unvetted && IsFinal(to)
  {
  }

  /** A chain of statuses in which every consecutive move obeys the rule. */
  ghost predicate IsChain(path: seq<PsrStatus>)
  {
    forall i :: 0 <= i < |path| - 1 ==> IsValidTransition(path[i], path[i + 1])
  }

  /**
   * The gate is one-way: a chain of legal moves that makes any move starts at
   * unvetted, ends in a final status and makes exactly one move.
   */
  lemma ChainsMakeOneMove(path: seq<PsrStatus>)
    ensures IsChain(path) && |path| >= 2 ==>
      path[0] == Unvetted && IsFinal(path[|path| - 1]) && |path| == 2
  {
    if |path| >= 2 {
      assert IsChain(path) ==> IsValidTransition(path[0], path[1]);
    }
    if |path| > 2 {
      assert IsChain(path) ==> IsValidTransition(path[1], path[2]);
    }
  }
}

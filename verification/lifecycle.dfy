/**
 * A reference model of the Backend interface as functions over the backend's
 * state: the token-keyed proposal store and the shutting-down flag. Each
 * operation returns the new state and the reply the caller sees.
 */
module Lifecycle {
  import opened Wrappers
  import opened Errors
  import opened Status
  import opened Records

  /** The backend's state: every stored proposal by token, and whether Close was called. */
  datatype Store = Store(proposals: map<Token, Proposal>, closed: bool)

  /** A backend that has stored nothing and accepts calls. */
  function Init(): (s: Store)
    ensures s.proposals == map[] && !s.closed
  {
    Store(map[], false)
  }

  /**
   * The store's invariant: each proposal is filed under its own token, has
   * been stored at version 1 or later with a status other than invalid, and
   * its merkle root is the root of its file list.
   */
  ghost predicate Consistent(s: Store, c: Collaborators)
  {
    forall t :: t in s.proposals ==>
      && s.proposals[t].record.token == t
      && s.proposals[t].record.status != Invalid
      && s.proposals[t].record.version >= 1
      && s.proposals[t].record.merkle == c.merkleRoot(s.proposals[t].files)
  }

  /**
   * New: checks the content, then stores a version-1 unvetted record under the
   * fresh token the token generator handed out.
   */
  function New(s: Store, c: Collaborators, name: string, files: seq<File>, token: Token): (r: (Store, Result<Record, Error>))
    requires token !in s.proposals
    ensures r.1.Ok? <==> !s.closed && c.verifyContent(files).None?
    ensures s.closed ==> r == (s, Err(Shutdown))
    ensures !s.closed && c.verifyContent(files).Some? ==>
      r == (s, Err(ContentVerification(c.verifyContent(files).value)))
    ensures r.1.Ok? ==>
      && r.1.value.version == 1 && r.1.value.status == Unvetted
      && r.1.value.token == token && r.1.value.name == name
      && r.1.value.merkle == c.merkleRoot(files)
      && r.0.proposals == s.proposals[token := Proposal(files, r.1.value)]
      && r.0.closed == s.closed
  {
    if s.closed then (s, Err(Shutdown))
    else match c.verifyContent(files)
      case Some(cause) => (s, Err(ContentVerification(cause)))
      case None =>
        var record := Record(1, Unvetted, c.merkleRoot(files), name, token);
        (s.(proposals := s.proposals[token := Proposal(files, record)]), Ok(record))
  }

  /** Looks a proposal up by token, scoped to one status. */
  function Lookup(s: Store, token: Token, want: PsrStatus): (r: Result<Proposal, Error>)
    ensures r.Ok? <==> !s.closed && token in s.proposals && s.proposals[token].record.status == want
    ensures r.Ok? ==> r.value == s.proposals[token]
    ensures r.Err? ==> r.error == if s.closed then Shutdown else ProposalNotFound
  {
    if s.closed then Err(Shutdown)
    else if token in s.proposals && s.proposals[token].record.status == want then Ok(s.proposals[token])
    else Err(ProposalNotFound)
  }

  /** GetUnvetted: the files and record of an unvetted proposal. */
  function GetUnvetted(s: Store, token: Token): (r: Result<Proposal, Error>)
    ensures r.Ok? <==> !s.closed && token in s.proposals && s.proposals[token].record.status == Unvetted
    ensures r.Ok? ==> r.value == s.proposals[token]
    ensures r.Err? ==> r.error == if s.closed then Shutdown else ProposalNotFound
  {
    Lookup(s, token, Unvetted)
  }

  /** GetVetted: the files and record of a vetted proposal. */
  function GetVetted(s: Store, token: Token): (r: Result<Proposal, Error>)
    ensures r.Ok? <==> !s.closed && token in s.proposals && s.proposals[token].record.status == Vetted
    ensures r.Ok? ==> r.value == s.proposals[token]
    ensures r.Err? ==> r.error == if s.closed then Shutdown else ProposalNotFound
  {
    Lookup(s, token, Vetted)
  }

  /**
   * SetUnvettedStatus: applies the transition rule to the stored record and,
   * on success, overwrites its status and nothing else.
   */
  function SetUnvettedStatus(s: Store, token: Token, code: int): (r: (Store, Result<PsrStatus, Error>))
    ensures r.1.Ok? <==>
      && !s.closed && token in s.proposals && FromCode(code).Some?
      && IsValidTransition(s.proposals[token].record.status, FromCode(code).value)
    ensures r.1.Err? ==> r.0 == s
    ensures r.1.Err? ==>
      r.1.error == (if s.closed then Shutdown else if token !in s.proposals then ProposalNotFound else InvalidTransition)
    ensures r.1.Ok? ==>
      && r.1.value.Code() == code
      && r.0.closed == s.closed
      && r.0.proposals.Keys == s.proposals.Keys
      && r.0.proposals[token].record.status == r.1.value
      && SameExceptStatus(s.proposals[token], r.0.proposals[token])
      && (forall t :: t in s.proposals && t != token ==> r.0.proposals[t] == s.proposals[t])
  {
    if s.closed then (s, Err(Shutdown))
    else if token !in s.proposals then (s, Err(ProposalNotFound))
    else
      var p := s.proposals[token];
      match FromCode(code)
      case None => (s, Err(InvalidTransition))
      case Some(to) =>
        if !IsValidTransition(p.record.status, to) then (s, Err(InvalidTransition))
        else
          var q := p.(record := p.record.(status := to));
          (s.(proposals := s.proposals[token := q]), Ok(to))
  }

  /** Close: the backend is shutting down from now on; nothing stored changes. */
  function Close(s: Store): (r: Store)
    ensures r.closed && r.proposals == s.proposals
  {
    s.(closed := true)
  }

  /** One call of the Backend interface, with the token New is handed. */
  datatype Call =
    | NewCall(name: string, files: seq<File>, token: Token)
    | GetUnvettedCall(token: Token)
    | GetVettedCall(token: Token)
    | SetUnvettedStatusCall(token: Token, code: int)
    | CloseCall

  /** The state after one call. */
  function Step(s: Store, c: Collaborators, call: Call): (r: Store)
    requires call.NewCall? ==> call.token !in s.proposals
    ensures s.proposals.Keys <= r.proposals.Keys
    ensures s.closed ==> r == s
    ensures forall t :: t in s.proposals ==> SameExceptStatus(s.proposals[t], r.proposals[t])
    ensures forall t :: t in s.proposals && s.proposals[t].record.status != Unvetted ==>
      r.proposals[t] == s.proposals[t]
  {
    match call
    case NewCall(name, files, token) => New(s, c, name, files, token).0
    case GetUnvettedCall(_) => s
    case GetVettedCall(_) => s
    case SetUnvettedStatusCall(token, code) => SetUnvettedStatus(s, token, code).0
    case CloseCall => Close(s)
  }

  /** Every New in the sequence is handed a token not yet in use when it runs. */
  ghost predicate FreshTokens(s: Store, c: Collaborators, calls: seq<Call>)
    decreases |calls|
  {
    calls == [] ||
    ((calls[0].NewCall? ==> calls[0].token !in s.proposals) &&
     FreshTokens(Step(s, c, calls[0]), c, calls[1..]))
  }

  /** The state after a sequence of calls, in order. */
  function Run(s: Store, c: Collaborators, calls: seq<Call>): (r: Store)
    requires FreshTokens(s, c, calls)
    ensures s.proposals.Keys <= r.proposals.Keys
    ensures s.closed ==> r == s
    decreases |calls|
  {
    if calls == [] then s else Run(Step(s, c, calls[0]), c, calls[1..])
  }

  /** Every call keeps the store's invariant. */
  lemma StepPreservesConsistency(s: Store, c: Collaborators, call: Call)
    requires Consistent(s, c)
    requires call.NewCall? ==> call.token !in s.proposals
    ensures Consistent(Step(s, c, call), c)
  {
    var r := Step(s, c, call);
    forall t | t in r.proposals
      ensures r.proposals[t].record.token == t && r.proposals[t].record.status != Invalid
      ensures r.proposals[t].record.version >= 1
      ensures r.proposals[t].record.merkle == c.merkleRoot(r.proposals[t].files)
    {
      if t in s.proposals {
        assert SameExceptStatus(s.proposals[t], r.proposals[t]);
      }
    }
  }

  /** Any sequence of calls keeps the store's invariant. */
  lemma {:induction false} RunPreservesConsistency(s: Store, c: Collaborators, calls: seq<Call>)
    requires Consistent(s, c) && FreshTokens(s, c, calls)
    ensures Consistent(Run(s, c, calls), c)
    decreases |calls|
  {
    if calls != [] {
      StepPreservesConsistency(s, c, calls[0]);
      RunPreservesConsistency(Step(s, c, calls[0]), c, calls[1..]);
    }
  }

  /**
   * A token, once stored, stays stored, and its files, version, merkle root,
   * name and token never change, whatever calls follow.
   */
  lemma {:induction false} StoredContentIsImmutable(s: Store, c: Collaborators, calls: seq<Call>, token: Token)
    requires FreshTokens(s, c, calls) && token in s.proposals
    ensures token in Run(s, c, calls).proposals
    ensures SameExceptStatus(s.proposals[token], Run(s, c, calls).proposals[token])
    decreases |calls|
  {
    if calls != [] {
      StoredContentIsImmutable(Step(s, c, calls[0]), c, calls[1..], token);
    }
  }

  /**
   * The editorial decision is irrevocable: once a record is vetted or
   * censored, no later sequence of calls changes anything stored under its token.
   */
  lemma {:induction false} DecisionIsFinal(s: Store, c: Collaborators, calls: seq<Call>, token: Token)
    requires FreshTokens(s, c, calls)
    requires token in s.proposals && IsFinal(s.proposals[token].record.status)
    ensures token in Run(s, c, calls).proposals
    ensures Run(s, c, calls).proposals[token] == s.proposals[token]
    decreases |calls|
  {
    if calls != [] {
      DecisionIsFinal(Step(s, c, calls[0]), c, calls[1..], token);
    }
  }

  /** After Close every operation reports ErrShutdown and nothing changes. */
  lemma ClosedBackendRefusesCalls(s: Store, c: Collaborators, name: string, files: seq<File>, token: Token, code: int)
    requires s.closed
    ensures token !in s.proposals ==> New(s, c, name, files, token) == (s, Err(Shutdown))
    ensures GetUnvetted(s, token) == Err(Shutdown)
    ensures GetVetted(s, token) == Err(Shutdown)
    ensures SetUnvettedStatus(s, token, code) == (s, Err(Shutdown))
    ensures Close(s) == s
  {
  }

  /**
   * Of two status requests on one token, at most the first wins: once it has
   * moved the record, the second reports ErrInvalidTransition.
   */
  lemma OnlyOneDecisionWins(s: Store, token: Token, first: int, second: int)
    requires SetUnvettedStatus(s, token, first).1.Ok?
    ensures SetUnvettedStatus(SetUnvettedStatus(s, token, first).0, token, second).1 == Err(InvalidTransition)
  {
  }

  /**
   * A record handed to a caller from a consistent store carries the token it
   * was asked for, a status other than invalid, and the merkle root of the
   * files handed out with it.
   */
  lemma FetchedRecordsAreConsistent(s: Store, c: Collaborators, token: Token, want: PsrStatus)
    requires Consistent(s, c) && Lookup(s, token, want).Ok?
    ensures Lookup(s, token, want).value.record.token == token
    ensures Lookup(s, token, want).value.record.status == want != Invalid
    ensures Lookup(s, token, want).value.record.merkle == c.merkleRoot(Lookup(s, token, want).value.files)
  {
  }

  /**
   * The life of one proposal: New stores it unvetted, so GetUnvetted finds it
   * and GetVetted does not; vetting it returns the vetted status, after which
   * GetVetted returns the same files with the record now vetted, and
   * GetUnvetted no longer finds it.
   */
  lemma SubmitThenVet(s: Store, c: Collaborators, name: string, files: seq<File>, token: Token)
    requires !s.closed && token !in s.proposals && c.verifyContent(files).None?
    ensures
      var (s1, created) := New(s, c, name, files, token);
      && created.Ok? && created.value.status == Unvetted && created.value.version == 1
      && GetUnvetted(s1, token) == Ok(Proposal(files, created.value))
      && GetVetted(s1, token) == Err(ProposalNotFound)
      && var (s2, vetted) := SetUnvettedStatus(s1, token, Vetted.Code());
      && vetted == Ok(Vetted)
      && GetVetted(s2, token) == Ok(Proposal(files, created.value.(status := Vetted)))
      && GetUnvetted(s2, token) == Err(ProposalNotFound)
  {
  }
}

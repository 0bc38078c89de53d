/**
 * An in-memory implementation of the Backend interface: a mutable store of
 * proposals keyed by token and a shutting-down flag. Each method is proved
 * against the matching function of the Lifecycle reference model.
 */
module Backend {
  import opened Wrappers
  import opened Errors
  import opened Status
  import opened Records
  import Lifecycle

  class MemoryBackend {
    var proposals: map<Token, Proposal>
    var closed: bool
    const collaborators: Collaborators

    /** The backend's state as a Lifecycle store. */
    function Model(): Lifecycle.Store
      reads this
    {
      Lifecycle.Store(proposals, closed)
    }

    ghost predicate Valid()
      reads this
    {
      Lifecycle.Consistent(Model(), collaborators)
    }

    /** An empty backend that accepts calls. */
    constructor (c: Collaborators)
      ensures Valid() && collaborators == c
      ensures Model() == Lifecycle.Init()
    {
      proposals := map[];
      closed := false;
      collaborators := c;
    }

    /** Create a new proposal under the fresh token the token generator handed out. */
    method New(name: string, files: seq<File>, token: Token) returns (r: Result<Record, Error>)
      requires Valid() && token !in proposals
      modifies this
      ensures Valid()
      ensures (Model(), r) == Lifecycle.New(old(Model()), collaborators, name, files, token)
    {
      if closed {
        return Err(Shutdown);
      }
      var cause := collaborators.verifyContent(files);
      if cause.Some? {
        return Err(ContentVerification(cause.value));
      }
      var record := Record(1, Unvetted, collaborators.merkleRoot(files), name, token);
      proposals := proposals[token := Proposal(files, record)];
      r := Ok(record);
    }

    /** Get an unvetted proposal. */
    method GetUnvetted(token: Token) returns (r: Result<Proposal, Error>)
      requires Valid()
      ensures r == Lifecycle.GetUnvetted(Model(), token)
      ensures r.Ok? ==> r.value.record.token == token && r.value.record.status == Unvetted
      ensures r.Ok? ==> r.value.record.merkle == collaborators.merkleRoot(r.value.files)
    {
      r := Find(token, Unvetted);
    }

    /** Get a vetted proposal. */
    method GetVetted(token: Token) returns (r: Result<Proposal, Error>)
      requires Valid()
      ensures r == Lifecycle.GetVetted(Model(), token)
      ensures r.Ok? ==> r.value.record.token == token && r.value.record.status == Vetted
      ensures r.Ok? ==> r.value.record.merkle == collaborators.merkleRoot(r.value.files)
    {
      r := Find(token, Vetted);
    }

    /** The proposal stored under token, if the backend is open and its status is want. */
    method Find(token: Token, want: PsrStatus) returns (r: Result<Proposal, Error>)
      ensures r == Lifecycle.Lookup(Model(), token, want)
    {
      if closed {
        return Err(Shutdown);
      }
      if token !in proposals || proposals[token].record.status != want {
        return Err(ProposalNotFound);
      }
      r := Ok(proposals[token]);
    }

    /** Set an unvetted proposal's status, overwriting the stored record's Status in place. */
    method SetUnvettedStatus(token: Token, code: int) returns (r: Result<PsrStatus, Error>)
      requires Valid()
      modifies this
      ensures Valid()
      ensures (Model(), r) == Lifecycle.SetUnvettedStatus(old(Model()), token, code)
    {
      if closed {
        return Err(Shutdown);
      }
      if token !in proposals {
        return Err(ProposalNotFound);
      }
      var p := proposals[token];
      var to := FromCode(code);
      if to.None? || !IsValidTransition(p.record.status, to.value) {
        return Err(InvalidTransition);
      }
      proposals := proposals[token := p.(record := p.record.(status := to.value))];
      r := Ok(to.value);
    }

    /** Close performs cleanup: the backend is shutting down from now on. */
    method Close()
      requires Valid()
      modifies this
      ensures Valid()
      ensures Model() == Lifecycle.Close(old(Model()))
    {
      closed := true;
    }
  }
}

/** The auth service and its Redis token store as written, each store command taking its
    outcome as a parameter, tied to the rotation machine. */
module AuthService {
  import opened Counting
  import opened Rotation

  datatype Result = TokenPair(refreshToken: Token) | Unauthorized | Internal

  datatype LookupResult = User(id: int) | NoSuchToken | StoreError

  /** What the token store and the access-token issuer do during one call. */
  datatype Faults = Faults(lookupError: bool, delete: Outcome, issueError: bool, save: Outcome)

  class TokenRepository {
    var store: map<Token, int>

    constructor ()
      ensures store == map[]
    {
      store := map[];
    }

    method Save(token: Token, user: int, outcome: Outcome) returns (ok: bool)
      modifies this
      ensures store == if outcome == ErrorBefore then old(store) else old(store)[token := user]
      ensures ok == (outcome == Applied)
    {
      if outcome != ErrorBefore {
        store := store[token := user];
      }
      ok := outcome == Applied;
    }

    method UserID(token: Token, error: bool) returns (r: LookupResult)
      ensures r == if error then StoreError else if token in store then User(store[token]) else NoSuchToken
    {
      if error {
        return StoreError;
      }
      r := if token in store then User(store[token]) else NoSuchToken;
    }

    method Delete(token: Token, outcome: Outcome) returns (ok: bool)
      modifies this
      ensures store == if outcome == ErrorBefore then old(store) else old(store) - {token}
      ensures ok == (outcome == Applied)
    {
      if outcome != ErrorBefore {
        store := store - {token};
      }
      ok := outcome == Applied;
    }
  }

  /** The store after a refresh that nothing interrupts. */
  ghost function StoreAfterRefresh(store: map<Token, int>, token: Token, uuid: Token, f: Faults): map<Token, int> {
    if f.lookupError || token !in store || f.delete == ErrorBefore then store
    else if f.delete == ErrorAfter || f.issueError || f.save == ErrorBefore then store - {token}
    else (store - {token})[uuid := store[token]]
  }

  lemma RemovingShrinks(store: map<Token, int>, token: Token, uuid: Token, user: int)
    requires token in store && uuid !in store
    ensures |store - {token}| == |store| - 1 && |(store - {token})[uuid := user]| == |store|
  {
    var less := store - {token};
    assert less.Keys == store.Keys - {token};
    assert |less| == |less.Keys| && |store| == |store.Keys|;
    assert less[uuid := user].Keys == less.Keys + {uuid};
    assert |less[uuid := user]| == |less[uuid := user].Keys|;
  }

  class Service {
    const tokens: TokenRepository

    constructor (tokens: TokenRepository)
      ensures this.tokens == tokens
    {
      this.tokens := tokens;
    }

    method IssueTokenPair(user: int, uuid: Token, f: Faults) returns (r: Result)
      modifies tokens
      ensures tokens.store
           == if f.issueError || f.save == ErrorBefore then old(tokens.store) else old(tokens.store)[uuid := user]
      ensures r == if !f.issueError && f.save == Applied then TokenPair(uuid) else Internal
    {
      if f.issueError {
        return Internal;
      }
      var saved := tokens.Save(uuid, user, f.save);
      if !saved {
        return Internal;
      }
      r := TokenPair(uuid);
    }

    /** `account` is the user the e-mail belongs to, if the lookup found one. */
    method Login(account: Option<int>, passwordMatches: bool, uuid: Token, f: Faults) returns (r: Result)
      requires uuid !in tokens.store
      modifies tokens
      ensures r.TokenPair? <==> account.Some? && passwordMatches && !f.issueError && f.save == Applied
      ensures r.TokenPair? ==> r == TokenPair(uuid) && tokens.store == old(tokens.store)[uuid := account.value]
      ensures r == Unauthorized <==> account.None? || !passwordMatches
      ensures r == Unauthorized ==> tokens.store == old(tokens.store)
      ensures tokens.store - {uuid} == old(tokens.store)
    {
      if account.None? || !passwordMatches {
        return Unauthorized;
      }
      r := IssueTokenPair(account.value, uuid, f);
    }

    /** Rotation: look up, delete, then issue. A success trades exactly one live token for one
        new one of the same user, and a failure never leaves more live tokens than before. */
    method Refresh(token: Token, uuid: Token, f: Faults) returns (r: Result)
      requires uuid !in tokens.store
      modifies tokens
      ensures tokens.store == StoreAfterRefresh(old(tokens.store), token, uuid, f)
      ensures r.TokenPair? <==>
                token in old(tokens.store) && !f.lookupError && f.delete == Applied && !f.issueError && f.save == Applied
      ensures r.TokenPair? ==>
                && r == TokenPair(uuid) && token !in tokens.store
                && uuid in tokens.store && tokens.store[uuid] == old(tokens.store)[token]
                && |tokens.store| == |old(tokens.store)|
      ensures !r.TokenPair? ==> |tokens.store| <= |old(tokens.store)|
      ensures token !in old(tokens.store) && !f.lookupError ==> r == Unauthorized
    {
      var user := tokens.UserID(token, f.lookupError);
      match user
      case NoSuchToken => return Unauthorized;
      case StoreError => return Internal;
      case User(id) =>
        ghost var before := tokens.store;
        RemovingShrinks(before, token, uuid, id);
        var deleted := tokens.Delete(token, f.delete);
        if !deleted {
          return Internal;
        }
        r := IssueTokenPair(id, uuid, f);
    }

    method Logout(token: Token, outcome: Outcome) returns (ok: bool)
      modifies tokens
      ensures tokens.store == if outcome == ErrorBefore then old(tokens.store) else old(tokens.store) - {token}
      ensures ok ==> token !in tokens.store
    {
      ok := tokens.Delete(token, outcome);
    }
  }

  /** The machine's steps for one refresh call that nothing interrupts. */
  function RefreshRun(c: nat, token: Token, uuid: Token, f: Faults): seq<Step> {
    [StartRefresh(token), Step.Lookup(c, f.lookupError), Step.Delete(c, f.delete)]
    + (if f.issueError then [IssueFails(c)] else [Step.Save(c, uuid, f.save)])
  }

  lemma FourSteps(s: State, a: Step, b: Step, c: Step, d: Step)
    ensures Exec(s, [a, b, c, d]) == Do(Do(Do(Do(s, a), b), c), d)
  {
    hide Do;
    assert Exec(s, []) == s;
    ExecSnoc(s, [], a);
    ExecSnoc(s, [a], b);
    ExecSnoc(s, [a, b], c);
    ExecSnoc(s, [a, b, c], d);
    assert [] + [a] == [a] && [a] + [b] == [a, b] && [a, b] + [c] == [a, b, c] && [a, b, c] + [d] == [a, b, c, d];
  }

  lemma AskStep(s: State, token: Token, error: bool)
    ensures var c := |s.calls|;
            var s' := Do(Do(s, StartRefresh(token)), Step.Lookup(c, error));
            && s'.store == s.store && s'.minted == s.minted && |s'.calls| == c + 1
            && s'.calls[c] == Call(Kind.Refresh(token),
                 if error || token !in s.store then Denied else Found(s.store[token]))
  {
  }

  lemma FinishStep(s: State, c: nat, uuid: Token, f: Faults)
    requires c < |s.calls| && (s.calls[c].pc.Minting? || s.calls[c].pc == Denied) && uuid !in s.minted
    ensures var s' := Do(s, if f.issueError then IssueFails(c) else Step.Save(c, uuid, f.save));
            && |s'.calls| == |s.calls|
            && (s'.calls[c].pc == Done(uuid) <==> s.calls[c].pc.Minting? && !f.issueError && f.save == Applied)
            && (s'.calls[c].pc == Done(uuid) || s'.calls[c].pc == Denied)
            && s'.store == (if s.calls[c].pc.Minting? && !f.issueError && f.save != ErrorBefore
                            then s.store[uuid := s.calls[c].pc.user] else s.store)
  {
  }

  lemma DeleteStep(s: State, c: nat, token: Token, outcome: Outcome)
    requires c < |s.calls| && s.calls[c].kind == Kind.Refresh(token) && (s.calls[c].pc.Found? || s.calls[c].pc == Denied)
    ensures var s' := Do(s, Step.Delete(c, outcome));
            && s'.minted == s.minted && |s'.calls| == |s.calls|
            && s'.calls[c] == Call(Kind.Refresh(token),
                 if s.calls[c].pc.Found? && outcome == Applied then Minting(s.calls[c].pc.user) else Denied)
            && s'.store == (if s.calls[c].pc.Found? && outcome != ErrorBefore then s.store - {token} else s.store)
  {
    if token !in s.store {
      assert s.store - {token} == s.store;
    }
  }

  /** An uninterrupted Refresh is one schedule of the machine: from every state it leaves the
      store the method leaves, and the call ends with the token pair exactly if the method
      returns one. */
  lemma RefreshIsARun(s: State, token: Token, uuid: Token, f: Faults)
    requires uuid !in s.minted && uuid !in s.store
    ensures var c := |s.calls|;
            var s' := Exec(s, RefreshRun(c, token, uuid, f));
            && s'.store == StoreAfterRefresh(s.store, token, uuid, f)
            && |s'.calls| == c + 1
            && (s'.calls[c].pc == Done(uuid) <==>
                  token in s.store && !f.lookupError && f.delete == Applied && !f.issueError && f.save == Applied)
            && (s'.calls[c].pc == Done(uuid) || s'.calls[c].pc == Denied)
  {
    hide Do;
    hide Exec;
    var c := |s.calls|;
    var run := RefreshRun(c, token, uuid, f);
    FourSteps(s, run[0], run[1], run[2], run[3]);
    assert run == [run[0], run[1], run[2], run[3]];
    AskStep(s, token, f.lookupError);
    var asked := Do(Do(s, run[0]), run[1]);
    DeleteStep(asked, c, token, f.delete);
    FinishStep(Do(asked, run[2]), c, uuid, f);
  }

  /** A login is one schedule of the machine: the token is stored for the user exactly when the
      method stores it. */
  lemma LoginIsARun(s: State, user: int, uuid: Token, f: Faults)
    requires uuid !in s.minted
    ensures var c := |s.calls|;
            var s' := Do(Do(s, StartLogin(user)), if f.issueError then IssueFails(c) else Step.Save(c, uuid, f.save));
            && s'.store == (if f.issueError || f.save == ErrorBefore then s.store else s.store[uuid := user])
            && |s'.calls| == c + 1 && s'.calls[c].kind == Kind.Login(user)
            && s'.calls[c].pc == if !f.issueError && f.save == Applied then Done(uuid) else Denied
  {
  }

  /** And a logout is one step, as is the end of a token's time to live. */
  lemma LogoutIsAStep(s: State, token: Token, outcome: Outcome)
    ensures Do(s, Expire(token)).store == s.store - {token}
    ensures Do(s, Step.Logout(token, outcome)).store == if outcome == ErrorBefore then s.store else s.store - {token}
  {
    assert token !in s.store ==> s.store - {token} == s.store;
  }
}

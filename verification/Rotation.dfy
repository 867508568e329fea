/** Refresh-token rotation: logins, refreshes, logouts and expiries whose store operations
    interleave arbitrarily (services/auth/internal/auth). */
module Rotation {
  import opened Counting

  type Token = string

  // ----- The machine -----

  datatype Kind = Login(user: int) | Refresh(token: Token)

  /** Where a call stands between two store operations. */
  datatype PC =
    | Asked                  // a refresh that has not looked its token up yet
    | Found(user: int)       // the lookup succeeded, delete pending
    | Minting(user: int)     // credentials accepted or old token deleted; new token pending
    | Done(minted: Token)    // a token pair was returned
    | Denied                 // an error was returned

  datatype Call = Call(kind: Kind, pc: PC)

  /** Where a token came from: the token it was rotated from, if any, and the call that minted it. */
  datatype Origin = Origin(parent: Option<Token>, user: int, serial: nat, minter: nat)

  datatype Entry = LookedUp(c: nat, token: Token) | Removed(token: Token)

  datatype State = State(store: map<Token, int>, calls: seq<Call>, minted: map<Token, Origin>, log: seq<Entry>)

  const INIT := State(map[], [], map[], [])

  /** How a store command can end: an error may come before or after it took effect. */
  datatype Outcome = Applied | ErrorBefore | ErrorAfter

  datatype Step =
    | StartLogin(user: int)
    | StartRefresh(token: Token)
    | Lookup(c: nat, error: bool)
    | Delete(c: nat, outcome: Outcome)
    | IssueFails(c: nat)
    | Save(c: nat, uuid: Token, outcome: Outcome)
    | Logout(token: Token, outcome: Outcome)
    | Expire(token: Token)

  predicate Enabled(s: State, st: Step) {
    match st
    case StartLogin(_) => true
    case StartRefresh(_) => true
    case Lookup(c, _) => c < |s.calls| && s.calls[c].kind.Refresh? && s.calls[c].pc == Asked
    case Delete(c, _) => c < |s.calls| && s.calls[c].kind.Refresh? && s.calls[c].pc.Found?
    case IssueFails(c) => c < |s.calls| && s.calls[c].pc.Minting?
    // A fresh uuid
    case Save(c, uuid, _) => c < |s.calls| && s.calls[c].pc.Minting? && uuid !in s.minted
    case Logout(_, _) => true
    case Expire(_) => true
  }

  function Goto(s: State, c: nat, pc: PC): State
    requires c < |s.calls|
  {
    s.(calls := s.calls[c := s.calls[c].(pc := pc)])
  }

  function Remove(s: State, token: Token): State {
    if token in s.store then s.(store := s.store - {token}, log := s.log + [Removed(token)]) else s
  }

  function ParentOf(kind: Kind): Option<Token> {
    if kind.Refresh? then Some(kind.token) else None
  }

  function Effect(s: State, st: Step): State
    requires Enabled(s, st)
  {
    match st
    case StartLogin(user) => s.(calls := s.calls + [Call(Login(user), Minting(user))])
    case StartRefresh(token) => s.(calls := s.calls + [Call(Refresh(token), Asked)])
    case Lookup(c, error) =>
      var token := s.calls[c].kind.token;
      if error || token !in s.store then Goto(s, c, Denied)
      else Goto(s, c, Found(s.store[token])).(log := s.log + [LookedUp(c, token)])
    case Delete(c, outcome) =>
      var s' := if outcome == ErrorBefore then s else Remove(s, s.calls[c].kind.token);
      Goto(s', c, if outcome == Applied then Minting(s.calls[c].pc.user) else Denied)
    case IssueFails(c) => Goto(s, c, Denied)
    case Save(c, uuid, outcome) =>
      var user := s.calls[c].pc.user;
      var s' := if outcome == ErrorBefore then s
                else s.(store := s.store[uuid := user],
                        minted := s.minted[uuid := Origin(ParentOf(s.calls[c].kind), user, |s.minted|, c)]);
      Goto(s', c, if outcome == Applied then Done(uuid) else Denied)
    case Logout(token, outcome) => if outcome == ErrorBefore then s else Remove(s, token)
    case Expire(token) => Remove(s, token)
  }

  function Do(s: State, st: Step): State {
    if Enabled(s, st) then Effect(s, st) else s
  }

  function Exec(s: State, run: seq<Step>): State {
    if run == [] then s else Do(Exec(s, run[..|run| - 1]), run[|run| - 1])
  }

  lemma ExecSnoc(s: State, run: seq<Step>, st: Step)
    ensures Exec(s, run + [st]) == Do(Exec(s, run), st)
  {
    assert (run + [st])[..|run|] == run;
  }

  // ----- What every schedule keeps -----

  ghost predicate Descends(s: State, t: Token)
    requires t in s.minted && s.minted[t].parent.Some?
  {
    var p := s.minted[t].parent.value;
    && p in s.minted && p !in s.store
    && s.minted[p].user == s.minted[t].user && s.minted[p].serial < s.minted[t].serial
  }

  ghost predicate ConsistentCall(s: State, x: Call) {
    x.kind.Refresh? ==>
      && (x.pc.Found? ==> x.kind.token in s.minted && s.minted[x.kind.token].user == x.pc.user)
      && (x.pc.Minting? ==>
            x.kind.token in s.minted && x.kind.token !in s.store && s.minted[x.kind.token].user == x.pc.user)
  }

  /** A live token was minted for the user it stands for; a token that was removed, or from
      which a call has gone on to mint, is not live. */
  ghost predicate Consistent(s: State) {
    && (forall t :: t in s.store ==> t in s.minted && s.store[t] == s.minted[t].user)
    && (forall c :: 0 <= c < |s.calls| ==> ConsistentCall(s, s.calls[c]))
    && (forall t :: t in s.minted ==> s.minted[t].serial < |s.minted|)
    && (forall t :: t in s.minted && s.minted[t].parent.Some? ==> Descends(s, t))
    && (forall i :: 0 <= i < |s.log| && s.log[i].Removed? ==> s.log[i].token in s.minted && s.log[i].token !in s.store)
    && (forall i, j :: (0 <= i < |s.log| && 0 <= j < |s.log| && s.log[i].LookedUp? && s.log[j].Removed?
                        && s.log[i].token == s.log[j].token) ==> i < j)
  }

  lemma RemoveKeepsConsistent(s: State, token: Token)
    requires Consistent(s)
    ensures Consistent(Remove(s, token)) && token !in Remove(s, token).store
    ensures Remove(s, token).calls == s.calls && Remove(s, token).minted == s.minted
  {
    var s' := Remove(s, token);
    forall c | 0 <= c < |s'.calls| ensures ConsistentCall(s', s'.calls[c]) {
      assert ConsistentCall(s, s.calls[c]);
    }
    forall t | t in s'.minted && s'.minted[t].parent.Some? ensures Descends(s', t) {
      assert Descends(s, t);
    }
  }

  lemma GotoKeepsConsistent(s: State, c: nat, pc: PC)
    requires Consistent(s) && c < |s.calls| && ConsistentCall(s, s.calls[c].(pc := pc))
    ensures Consistent(Goto(s, c, pc))
  {
    var s' := Goto(s, c, pc);
    forall i | 0 <= i < |s'.calls| ensures ConsistentCall(s', s'.calls[i]) {
      assert ConsistentCall(s, s.calls[i]);
    }
    forall t | t in s'.minted && s'.minted[t].parent.Some? ensures Descends(s', t) {
      assert Descends(s, t);
    }
  }

  lemma MintKeepsCall(s: State, c: nat, uuid: Token, outcome: Outcome, i: nat)
    requires Consistent(s) && Enabled(s, Save(c, uuid, outcome)) && outcome != ErrorBefore && i < |s.calls|
    ensures ConsistentCall(Effect(s, Save(c, uuid, outcome)), Effect(s, Save(c, uuid, outcome)).calls[i])
  {
    hide Descends;
    assert ConsistentCall(s, s.calls[i]);
  }

  lemma MintKeepsDescent(s: State, c: nat, uuid: Token, outcome: Outcome, t: Token)
    requires Consistent(s) && Enabled(s, Save(c, uuid, outcome)) && outcome != ErrorBefore
    requires var s' := Effect(s, Save(c, uuid, outcome)); t in s'.minted && s'.minted[t].parent.Some?
    ensures Descends(Effect(s, Save(c, uuid, outcome)), t)
  {
    if t == uuid {
      assert ConsistentCall(s, s.calls[c]);
    } else {
      assert Descends(s, t);
    }
  }

  lemma MintAddsOne(s: State, c: nat, uuid: Token, outcome: Outcome)
    requires Enabled(s, Save(c, uuid, outcome)) && outcome != ErrorBefore
    ensures |Effect(s, Save(c, uuid, outcome)).minted| == |s.minted| + 1
  {
    var minted := Effect(s, Save(c, uuid, outcome)).minted;
    assert minted.Keys == s.minted.Keys + {uuid};
    assert |minted| == |minted.Keys| && |s.minted| == |s.minted.Keys|;
  }

  lemma MintKeepsConsistent(s: State, c: nat, uuid: Token, outcome: Outcome)
    requires Consistent(s) && Enabled(s, Save(c, uuid, outcome)) && outcome != ErrorBefore
    ensures Consistent(Effect(s, Save(c, uuid, outcome)))
  {
    hide Descends, ConsistentCall;
    var s' := Effect(s, Save(c, uuid, outcome));
    MintAddsOne(s, c, uuid, outcome);
    forall i | 0 <= i < |s'.calls| ensures ConsistentCall(s', s'.calls[i]) {
      MintKeepsCall(s, c, uuid, outcome, i);
    }
    forall t | t in s'.minted && s'.minted[t].parent.Some? ensures Descends(s', t) {
      MintKeepsDescent(s, c, uuid, outcome, t);
    }
  }

  lemma StartKeepsConsistent(s: State, st: Step)
    requires Consistent(s) && (st.StartLogin? || st.StartRefresh?)
    ensures Consistent(Effect(s, st))
  {
    var s' := Effect(s, st);
    forall i | 0 <= i < |s'.calls| ensures ConsistentCall(s', s'.calls[i]) {
      if i < |s.calls| {
        assert ConsistentCall(s, s.calls[i]);
      }
    }
    forall t | t in s'.minted && s'.minted[t].parent.Some? ensures Descends(s', t) {
      assert Descends(s, t);
    }
  }

  lemma LookupKeepsConsistent(s: State, c: nat, error: bool)
    requires Consistent(s) && Enabled(s, Lookup(c, error))
    ensures Consistent(Effect(s, Lookup(c, error)))
  {
    var s' := Effect(s, Lookup(c, error));
    forall i | 0 <= i < |s'.calls| ensures ConsistentCall(s', s'.calls[i]) {
      assert ConsistentCall(s, s.calls[i]);
    }
    forall t | t in s'.minted && s'.minted[t].parent.Some? ensures Descends(s', t) {
      assert Descends(s, t);
    }
  }

  lemma ConsistentStep(s: State, st: Step)
    requires Consistent(s)
    ensures Consistent(Do(s, st))
  {
    if Enabled(s, st) {
      match st
      case StartLogin(_) => StartKeepsConsistent(s, st);
      case StartRefresh(_) => StartKeepsConsistent(s, st);
      case Lookup(c, error) => LookupKeepsConsistent(s, c, error);
      case Delete(c, outcome) =>
        var token := s.calls[c].kind.token;
        assert ConsistentCall(s, s.calls[c]);
        RemoveKeepsConsistent(s, token);
        var s' := if outcome == ErrorBefore then s else Remove(s, token);
        GotoKeepsConsistent(s', c, if outcome == Applied then Minting(s.calls[c].pc.user) else Denied);
      case IssueFails(c) => GotoKeepsConsistent(s, c, Denied);
      case Save(c, uuid, outcome) =>
        if outcome == ErrorBefore {
          GotoKeepsConsistent(s, c, Denied);
        } else {
          MintKeepsConsistent(s, c, uuid, outcome);
        }
      case Logout(token, outcome) => RemoveKeepsConsistent(s, token);
      case Expire(token) => RemoveKeepsConsistent(s, token);
    }
  }

  lemma {:induction false} ConsistentAlways(run: seq<Step>)
    ensures Consistent(Exec(INIT, run))
  {
    if run != [] {
      ConsistentAlways(run[..|run| - 1]);
      ConsistentStep(Exec(INIT, run[..|run| - 1]), run[|run| - 1]);
    }
  }

  // ----- Lineage -----

  /** The token t was rotated from, if any. */
  ghost predicate RotatedFrom(s: State, t: Token, p: Token) {
    && t in s.minted && s.minted[t].parent == Some(p)
    && p in s.minted && s.minted[p].serial < s.minted[t].serial
  }

  /** t was minted from a, directly or over any number of rotations. */
  ghost predicate Ancestor(s: State, a: Token, t: Token)
    decreases if t in s.minted then s.minted[t].serial else 0
  {
    && t in s.minted && s.minted[t].parent.Some?
    && RotatedFrom(s, t, s.minted[t].parent.value)
    && (s.minted[t].parent.value == a || Ancestor(s, a, s.minted[t].parent.value))
  }

  /** The token at the start of t's lineage. */
  ghost function Root(s: State, t: Token): Token
    decreases if t in s.minted then s.minted[t].serial else 0
  {
    if t in s.minted && s.minted[t].parent.Some? && RotatedFrom(s, t, s.minted[t].parent.value)
    then Root(s, s.minted[t].parent.value)
    else t
  }

  lemma {:induction false} AncestorsAreDead(s: State, a: Token, t: Token)
    requires Consistent(s) && Ancestor(s, a, t)
    ensures a !in s.store
    decreases s.minted[t].serial
  {
    assert Descends(s, t);
    if s.minted[t].parent.value != a {
      AncestorsAreDead(s, a, s.minted[t].parent.value);
    }
  }

  /** In every run the token a token was rotated from is its ancestor, and so are the ancestors
      of that one. */
  lemma {:induction false} ParentsAreAncestors(run: seq<Step>, a: Token, t: Token)
    requires var s := Exec(INIT, run); t in s.minted && s.minted[t].parent.Some?
    ensures var s := Exec(INIT, run);
            Ancestor(s, a, t) <==> s.minted[t].parent.value == a || Ancestor(s, a, s.minted[t].parent.value)
  {
    ConsistentAlways(run);
    assert Descends(Exec(INIT, run), t);
  }

  /** A token and any token minted from it, over any number of rotations, are never live
      together, in any interleaving and with any failing store command: once anything has been
      minted from a token, the token is gone for good. */
  lemma {:induction false} NeverLiveTogether(run: seq<Step>, a: Token, t: Token)
    requires Ancestor(Exec(INIT, run), a, t)
    ensures a !in Exec(INIT, run).store
  {
    ConsistentAlways(run);
    AncestorsAreDead(Exec(INIT, run), a, t);
  }

  lemma {:induction false} RootKeepsUser(s: State, t: Token)
    requires Consistent(s) && t in s.minted
    ensures Root(s, t) in s.minted && s.minted[Root(s, t)].parent.None?
    ensures s.minted[Root(s, t)].user == s.minted[t].user
    decreases s.minted[t].serial
  {
    if s.minted[t].parent.Some? {
      assert Descends(s, t);
      RootKeepsUser(s, s.minted[t].parent.value);
    }
  }

  /** The call that minted t was for t's user, or for t's parent, and is over. */
  ghost predicate MintedBy(s: State, t: Token)
    requires t in s.minted
  {
    var o := s.minted[t];
    && o.minter < |s.calls|
    && s.calls[o.minter].kind == (if o.parent.Some? then Refresh(o.parent.value) else Login(o.user))
    && (s.calls[o.minter].pc == Done(t) || s.calls[o.minter].pc == Denied)
  }

  /** Every token has its minter, and a login mints for the user who logged in. */
  ghost predicate Minters(s: State) {
    && (forall t :: t in s.minted ==> MintedBy(s, t))
    && (forall c :: 0 <= c < |s.calls| && s.calls[c].kind.Login? && s.calls[c].pc.Minting? ==>
          s.calls[c].pc.user == s.calls[c].kind.user)
  }

  lemma MinterStays(s: State, st: Step, t: Token)
    requires Enabled(s, st) && t in s.minted && MintedBy(s, t)
    ensures t in Effect(s, st).minted && MintedBy(Effect(s, st), t)
  {
  }

  lemma SavedByCall(s: State, c: nat, uuid: Token, outcome: Outcome)
    requires Enabled(s, Save(c, uuid, outcome)) && outcome != ErrorBefore
    requires s.calls[c].kind.Login? ==> s.calls[c].pc.user == s.calls[c].kind.user
    ensures var s' := Effect(s, Save(c, uuid, outcome)); uuid in s'.minted && MintedBy(s', uuid)
  {
  }

  lemma SaveHasMinter(s: State, st: Step)
    requires Minters(s) && Enabled(s, st) && st.Save?
    ensures st.uuid in Effect(s, st).minted ==> MintedBy(Effect(s, st), st.uuid)
  {
    hide MintedBy;
    var x := s.calls[st.c];
    if st.outcome != ErrorBefore {
      assert x.kind.Login? ==> x.pc.user == x.kind.user;
      SavedByCall(s, st.c, st.uuid, st.outcome);
    }
  }

  lemma LoginsStay(s: State, st: Step)
    requires Minters(s) && Enabled(s, st)
    ensures var s' := Effect(s, st);
            forall c :: 0 <= c < |s'.calls| && s'.calls[c].kind.Login? && s'.calls[c].pc.Minting? ==>
              s'.calls[c].pc.user == s'.calls[c].kind.user
  {
    hide MintedBy;
  }

  lemma MintersStep(s: State, st: Step)
    requires Minters(s) && Enabled(s, st)
    ensures Minters(Effect(s, st))
  {
    hide MintedBy;
    var s' := Effect(s, st);
    LoginsStay(s, st);
    forall t | t in s'.minted ensures MintedBy(s', t) {
      if t in s.minted {
        MinterStays(s, st, t);
      } else {
        SaveHasMinter(s, st);
      }
    }
  }

  lemma {:induction false} MintersAlways(run: seq<Step>)
    ensures Minters(Exec(INIT, run))
  {
    if run != [] {
      MintersAlways(run[..|run| - 1]);
      if Enabled(Exec(INIT, run[..|run| - 1]), run[|run| - 1]) {
        MintersStep(Exec(INIT, run[..|run| - 1]), run[|run| - 1]);
      }
    }
  }

  /** Every live token descends from a login of the very user it is good for: the call that minted
      the token at the start of its lineage is a Login with that user's credentials. */
  lemma {:induction false} LiveTokensComeFromLogins(run: seq<Step>, t: Token)
    requires t in Exec(INIT, run).store
    ensures var s := Exec(INIT, run);
            && Root(s, t) in s.minted
            && s.minted[Root(s, t)].minter < |s.calls|
            && s.calls[s.minted[Root(s, t)].minter].kind == Login(s.store[t])
  {
    ConsistentAlways(run);
    RootKeepsUser(Exec(INIT, run), t);
    MintersAlways(run);
    assert MintedBy(Exec(INIT, run), Root(Exec(INIT, run), t));
  }

  // ----- Reuse -----

  ghost function Uses(t: Token): Call -> bool { (x: Call) => x.kind == Refresh(t) && x.pc.Done? }
  ghost function LookupsOf(t: Token): Entry -> bool { (x: Entry) => x.LookedUp? && x.token == t }

  /** Refresh calls for t that are past a successful lookup. */
  ghost function Past(t: Token): Call -> bool {
    (x: Call) => x.kind == Refresh(t) && (x.pc.Found? || x.pc.Minting? || x.pc.Done?)
  }

  ghost predicate PastIsLookedUp(s: State, t: Token) {
    Count(s.calls, Past(t)) <= Count(s.log, LookupsOf(t))
  }

  lemma RemoveIsNoLookup(s: State, token: Token, t: Token)
    ensures Count(Remove(s, token).log, LookupsOf(t)) == Count(s.log, LookupsOf(t))
  {
    CountSnoc(s.log, Removed(token), LookupsOf(t));
  }

  lemma LogOfLookups(s: State, st: Step, t: Token)
    requires Enabled(s, st)
    ensures Count(Effect(s, st).log, LookupsOf(t))
         == Count(s.log, LookupsOf(t))
            + if st.Lookup? && !st.error && s.calls[st.c].kind.token == t && t in s.store then 1 else 0
  {
    match st
    case Lookup(c, error) => CountSnoc(s.log, LookedUp(c, s.calls[c].kind.token), LookupsOf(t));
    case Delete(c, _) => RemoveIsNoLookup(s, s.calls[c].kind.token, t);
    case Logout(token, _) => RemoveIsNoLookup(s, token, t);
    case Expire(token) => RemoveIsNoLookup(s, token, t);
    case _ =>
  }

  lemma CallsStep(s: State, st: Step, p: Call -> bool)
    requires Enabled(s, st)
    ensures var s' := Effect(s, st);
            if st.StartLogin? then Count(s'.calls, p) == Count(s.calls, p) + One(p(Call(Login(st.user), Minting(st.user))))
            else if st.StartRefresh? then Count(s'.calls, p) == Count(s.calls, p) + One(p(Call(Refresh(st.token), Asked)))
            else if st.Logout? || st.Expire? then s'.calls == s.calls
            else
              && st.c < |s.calls| == |s'.calls|
              && Count(s'.calls, p) == Count(s.calls, p) + One(p(s'.calls[st.c])) - One(p(s.calls[st.c]))
  {
    var s' := Effect(s, st);
    match st
    case StartLogin(user) => CountSnoc(s.calls, Call(Login(user), Minting(user)), p);
    case StartRefresh(token) => CountSnoc(s.calls, Call(Refresh(token), Asked), p);
    case Logout(_, _) =>
    case Expire(_) =>
    case _ =>
      CountUpdate(s.calls, st.c, s'.calls[st.c], p);
      assert s'.calls == s.calls[st.c := s'.calls[st.c]];
  }

  lemma PastStep(s: State, st: Step, t: Token)
    requires PastIsLookedUp(s, t)
    ensures PastIsLookedUp(Do(s, st), t)
  {
    hide Count;
    if Enabled(s, st) {
      CallsStep(s, st, Past(t));
      LogOfLookups(s, st, t);
    }
  }

  lemma {:induction false} PastAlways(run: seq<Step>, t: Token)
    ensures PastIsLookedUp(Exec(INIT, run), t)
  {
    if run != [] {
      PastAlways(run[..|run| - 1], t);
      PastStep(Exec(INIT, run[..|run| - 1]), run[|run| - 1], t);
    }
  }

  lemma {:induction false} UsesArePast(calls: seq<Call>, t: Token)
    ensures Count(calls, Uses(t)) <= Count(calls, Past(t))
  {
    if calls != [] {
      UsesArePast(calls[..|calls| - 1], t);
    }
  }

  lemma {:induction false} LookupsComeFirst(run: seq<Step>, t: Token, k: nat)
    requires var s := Exec(INIT, run); k < |s.log| && s.log[k] == Removed(t)
    ensures var log := Exec(INIT, run).log; forall j :: k <= j < |log| ==> !LookupsOf(t)(log[j])
  {
    ConsistentAlways(run);
  }

  /** The reuse bound, in every interleaving: a token yields no more token pairs than there
      were lookups of it before it was first removed, by whomever. */
  lemma {:induction false} ReuseBound(run: seq<Step>, t: Token, k: nat)
    requires var s := Exec(INIT, run); k < |s.log| && s.log[k] == Removed(t)
    ensures var s := Exec(INIT, run); Count(s.calls, Uses(t)) <= Count(s.log[..k], LookupsOf(t))
  {
    hide Exec;
    var s := Exec(INIT, run);
    LookupsComeFirst(run, t, k);
    PastAlways(run, t);
    UsesArePast(s.calls, t);
    assert s.log == s.log[..k] + s.log[k..];
    CountSplit(s.log[..k], s.log[k..], LookupsOf(t));
    CountZero(s.log[k..], LookupsOf(t));
  }

  /** A step whose store command and token issue succeed. */
  predicate Faultless(st: Step) {
    && (st.Delete? ==> st.outcome == Applied) && (st.Save? ==> st.outcome == Applied)
    && !st.IssueFails?
  }

  predicate AllFaultless(run: seq<Step>) {
    forall i :: 0 <= i < |run| ==> Faultless(run[i])
  }

  predicate LooksUp(st: Step) { st.Lookup? ==> !st.error }

  /** The same, and no lookup errs. */
  predicate FaultFree(run: seq<Step>) {
    AllFaultless(run) && forall i :: 0 <= i < |run| ==> LooksUp(run[i])
  }

  ghost function Unfinished(t: Token): Call -> bool {
    (x: Call) => x.kind == Refresh(t) && (x.pc.Found? || x.pc.Minting?)
  }

  ghost function Holding(t: Token): Call -> bool { (x: Call) => x.kind == Refresh(t) && x.pc.Found? }

  ghost function Winning(t: Token): Call -> bool {
    (x: Call) => x.kind == Refresh(t) && (x.pc.Minting? || x.pc.Done?)
  }

  lemma {:induction false} FaultlessPastIsLookedUp(run: seq<Step>, t: Token)
    requires AllFaultless(run)
    ensures var s := Exec(INIT, run); Count(s.calls, Past(t)) == Count(s.log, LookupsOf(t))
  {
    if run != [] {
      var before := run[..|run| - 1];
      var st := run[|run| - 1];
      var s := Exec(INIT, before);
      FaultlessPastIsLookedUp(before, t);
      if Enabled(s, st) {
        CallsStep(s, st, Past(t));
        LogOfLookups(s, st, t);
      }
    }
  }

  lemma {:induction false} PastIsUsedOrUnfinished(calls: seq<Call>, t: Token)
    ensures Count(calls, Past(t)) == Count(calls, Uses(t)) + Count(calls, Unfinished(t))
  {
    if calls != [] {
      PastIsUsedOrUnfinished(calls[..|calls| - 1], t);
    }
  }

  /** The exact count. In a run whose store commands succeed, once every refresh of t that looked
      it up has finished, t has yielded exactly as many token pairs as there were lookups of it
      before it was removed; so "a stolen token can only be used once" holds if and only if at
      most one lookup came before the removal. */
  lemma {:induction false} UsesAreLookups(run: seq<Step>, t: Token, k: nat)
    requires AllFaultless(run)
    requires var s := Exec(INIT, run);
             k < |s.log| && s.log[k] == Removed(t) && Count(s.calls, Unfinished(t)) == 0
    ensures var s := Exec(INIT, run);
            && Count(s.calls, Uses(t)) == Count(s.log[..k], LookupsOf(t))
            && (Count(s.calls, Uses(t)) <= 1 <==> Count(s.log[..k], LookupsOf(t)) <= 1)
  {
    hide Exec;
    var s := Exec(INIT, run);
    LookupsComeFirst(run, t, k);
    FaultlessPastIsLookedUp(run, t);
    PastIsUsedOrUnfinished(s.calls, t);
    assert s.log == s.log[..k] + s.log[k..];
    CountSplit(s.log[..k], s.log[k..], LookupsOf(t));
    CountZero(s.log[k..], LookupsOf(t));
  }

  /** At no moment of the run do two refreshes of t stand between lookup and delete. */
  ghost predicate NoOverlap(run: seq<Step>, t: Token) {
    forall n :: 0 <= n <= |run| ==> Count(Exec(INIT, run[..n]).calls, Holding(t)) <= 1
  }

  /** At most one refresh of t has deleted it, and then t is dead and no other holds it. */
  ghost predicate SingleWinner(s: State, t: Token) {
    && Count(s.calls, Winning(t)) <= 1
    && (Count(s.calls, Winning(t)) == 1 ==> t in s.minted && t !in s.store && Count(s.calls, Holding(t)) == 0)
  }

  predicate ActsOnCall(st: Step) {
    st.Lookup? || st.Delete? || st.IssueFails? || st.Save?
  }

  lemma CallKeepsSingleWinner(s: State, st: Step, t: Token)
    requires Enabled(s, st) && ActsOnCall(st) && ConsistentCall(s, s.calls[st.c])
    requires SingleWinner(s, t) && Count(s.calls, Holding(t)) <= 1
    ensures SingleWinner(Effect(s, st), t)
  {
    hide Count;
    CallsStep(s, st, Winning(t));
    CallsStep(s, st, Holding(t));
    if Winning(t)(s.calls[st.c]) {
      CountPositive(s.calls, st.c, Winning(t));
    }
    if Holding(t)(s.calls[st.c]) {
      CountPositive(s.calls, st.c, Holding(t));
    }
  }

  lemma SingleWinnerStep(s: State, st: Step, t: Token)
    requires Consistent(s) && SingleWinner(s, t) && Count(s.calls, Holding(t)) <= 1
    ensures SingleWinner(Do(s, st), t)
  {
    hide Count;
    if Enabled(s, st) {
      if ActsOnCall(st) {
        assert ConsistentCall(s, s.calls[st.c]);
        CallKeepsSingleWinner(s, st, t);
      } else {
        CallsStep(s, st, Winning(t));
        CallsStep(s, st, Holding(t));
      }
    }
  }

  lemma {:induction false} UsesAreWins(calls: seq<Call>, t: Token)
    ensures Count(calls, Uses(t)) <= Count(calls, Winning(t))
  {
    if calls != [] {
      UsesAreWins(calls[..|calls| - 1], t);
    }
  }

  /** Without overlap a token is single-use, whatever fails: if no two refreshes of t ever stand
      between lookup and delete, in particular if refreshes are atomic, t yields at most one pair. */
  lemma {:induction false} SingleUseWithoutOverlap(run: seq<Step>, t: Token)
    requires NoOverlap(run, t)
    ensures SingleWinner(Exec(INIT, run), t)
    ensures Count(Exec(INIT, run).calls, Uses(t)) <= 1
  {
    if run != [] {
      var before := run[..|run| - 1];
      assert NoOverlap(before, t) by {
        forall n | 0 <= n <= |before| ensures Count(Exec(INIT, before[..n]).calls, Holding(t)) <= 1 {
          assert before[..n] == run[..n];
        }
      }
      SingleUseWithoutOverlap(before, t);
      ConsistentAlways(before);
      SingleWinnerStep(Exec(INIT, before), run[|run| - 1], t);
    }
    UsesAreWins(Exec(INIT, run).calls, t);
  }

  /** Once a token has been removed, every later lookup of it is denied. */
  lemma {:induction false} RemovedStaysRemoved(run: seq<Step>, c: nat, error: bool)
    requires var s := Exec(INIT, run);
             && Enabled(s, Lookup(c, error)) && Removed(s.calls[c].kind.token) in s.log
    ensures Do(Exec(INIT, run), Lookup(c, error)).calls[c].pc == Denied
  {
    ConsistentAlways(run);
  }

  // ----- The bound is attained -----

  lemma Then(run: seq<Step>, st: Step) returns (run': seq<Step>, s': State)
    ensures run' == run + [st] && s' == Do(Exec(INIT, run), st) && s' == Exec(INIT, run')
    ensures FaultFree(run) && Faultless(st) && LooksUp(st) ==> FaultFree(run')
  {
    run' := run + [st];
    s' := Do(Exec(INIT, run), st);
    ExecSnoc(INIT, run, st);
  }

  /** n refreshes of one live token have looked it up, and none has deleted it yet. */
  ghost predicate Racing(s: State, t: Token, n: nat) {
    && |s.calls| == n + 1 && s.calls[0].pc == Done(t) && s.calls[0].kind.Login?
    && (forall c :: 1 <= c <= n ==> s.calls[c] == Call(Refresh(t), Found(7)))
    && s.store == map[t := 7] && s.minted.Keys == {t}
  }

  lemma NothingFails()
    ensures FaultFree([]) && Exec(INIT, []) == INIT
  {
  }

  /** One more refresh looks the token up. */
  lemma OneMoreRacer(s: State, t: Token, n: nat)
    requires Racing(s, t, n)
    ensures Racing(Do(Do(s, StartRefresh(t)), Lookup(n + 1, false)), t, n + 1)
  {
  }

  lemma {:induction false} RaceToLookup(t: Token, n: nat) returns (run: seq<Step>)
    ensures Racing(Exec(INIT, run), t, n)
    ensures FaultFree(run)
  {
    hide Exec, FaultFree;
    var s: State;
    if n == 0 {
      NothingFails();
      run, s := Then([], StartLogin(7));
      run, s := Then(run, Save(0, t, Applied));
    } else {
      hide Do, Racing;
      run := RaceToLookup(t, n - 1);
      OneMoreRacer(Exec(INIT, run), t, n - 1);
      run, s := Then(run, StartRefresh(t));
      run, s := Then(run, Lookup(n, false));
    }
  }

  /** The first m of the n racing refreshes have completed. */
  ghost predicate Won(s: State, t: Token, n: nat, m: nat) {
    && m <= n && |s.calls| == n + 1 && s.calls[0].kind.Login?
    && (forall c :: 1 <= c <= m ==> s.calls[c].kind == Refresh(t) && s.calls[c].pc.Done?)
    && (forall c :: m < c <= n ==> s.calls[c] == Call(Refresh(t), Found(7)))
    && |s.minted| == m + 1
    && (forall x :: x in s.minted ==> |x| <= |t| + m)
  }

  /** A token longer than any minted so far stands for a fresh uuid. */
  function Longer(t: Token, m: nat): Token
    ensures |Longer(t, m)| == |t| + m
  {
    if m == 0 then t else Longer(t, m - 1) + "x"
  }

  lemma FirstWinner(s: State, t: Token, n: nat)
    requires Racing(s, t, n)
    ensures Won(s, t, n, 0)
  {
    assert |s.minted| == |s.minted.Keys|;
  }

  /** One more racer deletes the token and mints its own. */
  lemma OneMoreWinner(s: State, t: Token, n: nat, m: nat)
    requires Won(s, t, n, m) && m < n
    ensures Won(Do(Do(s, Delete(m + 1, Applied)), Save(m + 1, Longer(t, m + 1), Applied)), t, n, m + 1)
  {
    assert Longer(t, m + 1) !in s.minted;
  }

  lemma {:induction false} WinAll(t: Token, n: nat, m: nat) returns (run: seq<Step>)
    requires m <= n
    ensures Won(Exec(INIT, run), t, n, m)
    ensures FaultFree(run)
  {
    hide Exec, Do, FaultFree, Won, Racing;
    if m == 0 {
      run := RaceToLookup(t, n);
      FirstWinner(Exec(INIT, run), t, n);
    } else {
      var s: State;
      run := WinAll(t, n, m - 1);
      OneMoreWinner(Exec(INIT, run), t, n, m - 1);
      run, s := Then(run, Delete(m, Applied));
      run, s := Then(run, Save(m, Longer(t, m), Applied));
    }
  }

  lemma {:induction false} AllUse(calls: seq<Call>, t: Token, n: nat)
    requires |calls| == n + 1 && calls[0].kind.Login?
    requires forall c :: 1 <= c <= n ==> calls[c].kind == Refresh(t) && calls[c].pc.Done?
    ensures Count(calls, Uses(t)) == n
  {
    if n > 0 {
      AllUse(calls[..n], t, n - 1);
    } else {
      assert calls[..0] == [];
    }
  }

  /** A refresh token is not single-use under concurrency: for every n there is a run, free of
      faults, in which one token yields n token pairs. */
  lemma TokenUsedManyTimes(t: Token, n: nat) returns (run: seq<Step>)
    ensures FaultFree(run)
    ensures forall i :: 0 <= i < |run| ==> Faultless(run[i]) && LooksUp(run[i])
    ensures Count(Exec(INIT, run).calls, Uses(t)) == n
  {
    run := WinAll(t, n, n);
    var calls := Exec(INIT, run).calls;
    AllUse(calls, t, n);
  }
}

/** What the pipeline owes to the topology: an event is queued only once the consumer's queue is
    bound, and from its first delivery on a message bounces as the declared wiring says. */
module PipelineRouting {
  import opened NotificationTable
  import opened Pipeline
  import opened PipelineMail
  import opened PipelineSafety
  import opened Topology

  // ----- The wiring in every run -----

  function MainBinding(cfg: Config): Binding { Binding(cfg.exchange, cfg.routingKey, cfg.queue) }

  function RetryBinding(cfg: Config): Binding {
    Binding(RetryExchangeName(cfg.queue), cfg.routingKey, RetryQueueName(cfg.queue))
  }

  /** Nothing but this consumer's declarations. */
  ghost predicate Own(cfg: Config, w: Wiring) {
    && w.bindings <= {MainBinding(cfg), RetryBinding(cfg)}
    && (cfg.queue in w.queues ==> w.queues[cfg.queue] == MainArgs(SpecOf(cfg)))
    && (RetryQueueName(cfg.queue) in w.queues ==> w.queues[RetryQueueName(cfg.queue)] == RetryArgs(SpecOf(cfg)))
    && (DLQQueueName(cfg.queue) in w.queues ==> w.queues[DLQQueueName(cfg.queue)] == PLAIN_ARGS)
  }

  lemma {:induction false} DeclaredIsOwn(cfg: Config, w: Wiring, n: nat)
    requires Own(cfg, w)
    ensures Own(cfg, Declared(w, SpecOf(cfg), n))
    ensures MainBinding(cfg) in Declared(w, SpecOf(cfg), n).bindings <==> MainBinding(cfg) in w.bindings || n >= 4
  {
    NamesDiffer(cfg.queue);
    if n > 0 {
      DeclaredIsOwn(cfg, w, n - 1);
    }
  }

  /** A declaration that gets as far as binding the main queue. */
  predicate Binds(st: Step) {
    st.DeclareTopology? && !(1 <= st.broken <= 4)
  }

  ghost predicate HasBound(run: seq<Step>) {
    exists i :: 0 <= i < |run| && Binds(run[i])
  }

  lemma OwnWiringReachesBinding(cfg: Config, w: Wiring, broken: nat)
    requires Own(cfg, w)
    ensures Reached(w, SpecOf(cfg), broken) >= 4 <==> !(1 <= broken <= 4)
  {
  }

  lemma GrowsFromItself(w: Wiring)
    ensures Grows(w, w)
  {
  }

  lemma ExchangeKeepsOwn(cfg: Config, w: Wiring)
    requires Own(cfg, w)
    ensures var w' := w.(exchanges := w.exchanges + {cfg.exchange}); Own(cfg, w') && Grows(w, w')
  {
  }

  lemma WiringStep(cfg: Config, s: State, st: Step)
    requires Own(cfg, s.wiring)
    ensures var w := Do(cfg, s, st).wiring;
            && Own(cfg, w)
            && (MainBinding(cfg) in w.bindings <==> MainBinding(cfg) in s.wiring.bindings || Binds(st))
            && Grows(s.wiring, w)
  {
    hide Own, Routed, Listening, Grows, Declared, RetriesIn, XDeath.RecordDeath;
    if st.DeclareTopology? {
      var n := Reached(s.wiring, SpecOf(cfg), st.broken);
      DeclaredIsOwn(cfg, s.wiring, n);
      DeclaredGrows(s.wiring, SpecOf(cfg), n);
      OwnWiringReachesBinding(cfg, s.wiring, st.broken);
    } else if st.DeclareExchange? {
      ExchangeKeepsOwn(cfg, s.wiring);
    } else {
      assert Do(cfg, s, st).wiring == s.wiring;
      GrowsFromItself(s.wiring);
    }
  }

  lemma {:induction false} WiringAlways(cfg: Config, run: seq<Step>)
    ensures Own(cfg, Exec(cfg, INIT, run).wiring)
    ensures MainBinding(cfg) in Exec(cfg, INIT, run).wiring.bindings <==> HasBound(run)
  {
    if run != [] {
      hide Do, Own;
      var n := |run| - 1;
      WiringAlways(cfg, run[..n]);
      WiringStep(cfg, Exec(cfg, INIT, run[..n]), run[n]);
      assert run == run[..n] + [run[n]];
      if HasBound(run[..n]) {
        var i :| 0 <= i < n && Binds(run[..n][i]);
        assert Binds(run[i]);
      }
      if HasBound(run) {
        var i :| 0 <= i < |run| && Binds(run[i]);
        assert i < n ==> Binds(run[..n][i]);
      }
    }
  }

  /** In every run, a message is queued exactly if a declaration has got as far as binding the
      main queue, and the routing key selects the message's key. */
  lemma {:induction false} RoutedOnceBound(cfg: Config, run: seq<Step>, key: string)
    ensures Routed(cfg, Exec(cfg, INIT, run), key) <==> HasBound(run) && Selects(cfg.routingKey, key)
  {
    WiringAlways(cfg, run);
    NamesDiffer(cfg.queue);
    var w := Exec(cfg, INIT, run).wiring;
    hide Exec, HasBound;
    if Routed(cfg, Exec(cfg, INIT, run), key) {
      var b :| b in w.bindings && b.exchange == cfg.exchange && Selects(b.pattern, key) && b.queue == cfg.queue;
    }
  }

  // ----- A published event -----

  lemma {:induction false} UncarriedStays(cfg: Config, before: seq<Step>, after: seq<Step>, e: EventId)
    requires var s := Exec(cfg, INIT, before); e in s.minted && !Carried(s, e)
    ensures var s := Exec(cfg, INIT, before + after); e in s.minted && !Carried(s, e)
  {
    hide ChangeOf, Enabled, Carried, Lawful, Linked, Exec;
    if after == [] {
      assert before + after == before;
    } else {
      var n := |after| - 1;
      UncarriedStays(cfg, before, after[..n], e);
      var run := before + after[..n];
      assert before + after == run + [after[n]];
      ExecSnoc(cfg, INIT, run, after[n]);
      var s := Exec(cfg, INIT, run);
      LinkedAlways(cfg, run);
      if Enabled(cfg, s, after[n]) {
        StepIsLawful(cfg, s, after[n]);
        StepAccepts(cfg, s, after[n]);
        NewlyCarried(s, ChangeOf(cfg, s, after[n]), e);
      }
    }
  }

  /** An event leaves a trace anywhere only if some message carries it. */
  ghost predicate Kept(s: State, e: EventId) {
    InBroker(s, e) || HasRow(s.rows, e) || LostInPark(s, e)
  }

  lemma KeptIsCarried(s: State, e: EventId)
    requires Traced(s) && Kept(s, e)
    ensures Carried(s, e)
  {
    if HasRow(s.rows, e) {
      var i :| 0 <= i < |s.rows| && s.rows[i].eventId == e;
      assert TracedRow(s, s.rows[i]);
    } else if LostInPark(s, e) {
      var i :| 0 <= i < |s.log| && s.log[i] == ParkTried(e, LostSilently);
      assert TracedEntry(s, s.log[i]);
    } else {
      var c :| 0 <= c < |s.copies| && Carries(s.copies[c].body, e) && s.copies[c].place != Acked;
    }
  }

  lemma PublishQueues(cfg: Config, s: State, st: Step)
    requires Enabled(cfg, s, st) && st.Publish? && st.taken
    ensures var s' := Do(cfg, s, st);
            && st.id in s'.minted
            && (Routed(cfg, s, USER_CREATED) ==> InBroker(s', st.id))
            && (!Routed(cfg, s, USER_CREATED) ==> !Carried(s', st.id))
  {
    hide Routed;
    var s' := Do(cfg, s, st);
    if Routed(cfg, s, USER_CREATED) {
      assert Carries(s'.copies[|s.copies|].body, st.id);
    }
  }

  /** What a broker confirmation is worth. Over all runs, an event the exchange took is kept from
      then on, in the broker, as a row or as a named lost park, if and only if the consumer had
      bound its queue for that key before the publish; otherwise no trace of it is ever found,
      though the publish was confirmed: one side does have to assume that the other has started. */
  lemma {:induction false} ConfirmedEventIsKeptIffBound(cfg: Config, before: seq<Step>, st: Step, after: seq<Step>)
    requires Enabled(cfg, Exec(cfg, INIT, before), st) && st.Publish? && st.taken
    ensures Kept(Exec(cfg, INIT, before + [st] + after), st.id)
            <==> HasBound(before) && Selects(cfg.routingKey, USER_CREATED)
  {
    var s := Exec(cfg, INIT, before);
    RoutedOnceBound(cfg, before, USER_CREATED);
    PublishQueues(cfg, s, st);
    ExecSnoc(cfg, INIT, before, st);
    hide Enabled, Do, Exec, Routed, Carried, InBroker;
    if Routed(cfg, s, USER_CREATED) {
      AcceptedEventsAreNeverLost(cfg, before + [st], after, st.id);
    } else {
      UncarriedStays(cfg, before + [st], after, st.id);
      TracedAlways(cfg, before + [st] + after);
      if Kept(Exec(cfg, INIT, before + [st] + after), st.id) {
        KeptIsCarried(Exec(cfg, INIT, before + [st] + after), st.id);
        assert false;
      }
    }
  }

  /** Such a publish exists: the user service starts first, commits a user and publishes its
      event, the broker confirms, and whatever happens afterwards no trace of it is ever found. */
  lemma {:induction false} ConfirmedEventCanVanish(cfg: Config, user: Payload, id: EventId, after: seq<Step>)
    ensures var before, st := [DeclareExchange, CommitUser(user)], Publish(0, id, true, true);
            && Enabled(cfg, Exec(cfg, INIT, before), st) && !HasBound(before)
            && !Kept(Exec(cfg, INIT, before + [st] + after), id)
  {
    var before, st := [DeclareExchange, CommitUser(user)], Publish(0, id, true, true);
    assert before[..1] == [DeclareExchange] && before[..1][..0] == [];
    assert Exec(cfg, INIT, before[..1]) == Do(cfg, INIT, DeclareExchange);
    assert Exec(cfg, INIT, before) == Do(cfg, Do(cfg, INIT, DeclareExchange), CommitUser(user));
    ConfirmedEventIsKeptIffBound(cfg, before, st, after);
  }

  // ----- The bounce, on the wiring -----

  lemma {:induction false} CallsMeanListening(cfg: Config, run: seq<Step>)
    ensures Exec(cfg, INIT, run).workers != [] ==> Listening(cfg, Exec(cfg, INIT, run))
  {
    if run != [] {
      hide Routed, Wired, Grows, RetriesIn, XDeath.RecordDeath;
      var n := |run| - 1;
      var s := Exec(cfg, INIT, run[..n]);
      CallsMeanListening(cfg, run[..n]);
      WiringAlways(cfg, run[..n]);
      WiringStep(cfg, s, run[n]);
      if Listening(cfg, s) {
        WiredStays(s.wiring, Exec(cfg, INIT, run).wiring, SpecOf(cfg));
      }
    }
  }

  lemma OwnDeadLetters(cfg: Config, w: Wiring, key: string)
    requires Own(cfg, w) && Wired(w, SpecOf(cfg)) && Selects(cfg.routingKey, key)
    ensures DeadLetter(w, cfg.queue, key) == {RetryQueueName(cfg.queue)}
            && DeadLetter(w, RetryQueueName(cfg.queue), key) == {cfg.queue}
            <==> cfg.exchange != RetryExchangeName(cfg.queue)
  {
    NamesDiffer(cfg.queue);
    NackGoesToRetry(w, SpecOf(cfg), key);
    ExpiryComesBack(w, SpecOf(cfg), key);
    assert MainBinding(cfg) in w.bindings && RetryBinding(cfg) in w.bindings;
    if cfg.exchange == RetryExchangeName(cfg.queue) {
      assert MainBinding(cfg).exchange == RetryExchangeName(cfg.queue) && MainBinding(cfg).queue != RetryQueueName(cfg.queue);
    }
  }

  /** The Nack and Expire steps of the machine are the wiring's: in every run that has delivered
      anything, the DLQ exists, a nacked message goes to the retry queue and nowhere else, and an
      expired one to the main queue and nowhere else, if and only if the shared exchange is not
      the retry exchange itself. */
  lemma {:induction false} DeadLettersFollowTheWiring(cfg: Config, run: seq<Step>, key: string)
    requires Exec(cfg, INIT, run).workers != [] && Selects(cfg.routingKey, key)
    ensures var w := Exec(cfg, INIT, run).wiring;
            && Wired(w, SpecOf(cfg))
            && (DeadLetter(w, cfg.queue, key) == {RetryQueueName(cfg.queue)}
                && DeadLetter(w, RetryQueueName(cfg.queue), key) == {cfg.queue}
                <==> cfg.exchange != RetryExchangeName(cfg.queue))
  {
    CallsMeanListening(cfg, run);
    WiringAlways(cfg, run);
    hide Exec;
    var w := Exec(cfg, INIT, run).wiring;
    OwnDeadLetters(cfg, w, key);
  }
}

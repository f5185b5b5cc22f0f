// The producer's reconnect loop: where every received message goes, and how long it waits.
module Producer {
  import opened Options

  // One turn of the outer loop. A connection delivers messages, each published or rejected,
  // until a receive fails, the handling of one more message raises, or the task is cancelled.
  // The loop then goes on unless the wait is cancelled or the closing flush raises.
  datatype Message = Published | Rejected
  datatype End = ReceiveFails | HandlingFails | CancelledReceiving | CancelledHandling
  datatype After = GoesOn | CancelledWaiting | FlushRaises
  datatype Session = ConnectFails(after: After)
                   | CancelledConnecting(after: After)
                   | Connected(messages: seq<Message>, end: End, after: After)

  // events_received, events_published, events_rejected, ws_disconnects
  datatype Metrics = Metrics(received: nat, published: nat, rejected: nat, disconnects: nat)

  const NO_METRICS := Metrics(0, 0, 0, 0)

  function Pow2(n: nat): nat {
    if n == 0 then 1 else 2 * Pow2(n - 1)
  }

  // min(2 ** min(failures, 5), cap)
  function Backoff(failures: nat, cap: nat): nat {
    Min(Pow2(Min(failures, 5)), cap)
  }

  // Waits start at 2, never shrink while failures go on, and level off at 32 or the cap.
  lemma BackoffRange(failures: nat, cap: nat)
    requires failures > 0
    ensures Min(2, cap) <= Backoff(failures, cap) <= Min(32, cap)
    ensures Backoff(1, cap) == Min(2, cap)
    ensures Backoff(failures, cap) <= Backoff(failures + 1, cap)
    ensures failures >= 5 ==> Backoff(failures, cap) == Min(32, cap)
    ensures Backoff(failures + 1, cap) == Min(2 * Backoff(failures, cap), Min(32, cap))
  {
    assert Pow2(1) == 2 && Pow2(2) == 4 && Pow2(3) == 8 && Pow2(4) == 16 && Pow2(5) == 32;
  }

  // ---------- what the counters must be ----------

  function Count(messages: seq<Message>, m: Message): nat {
    if messages == [] then 0 else Count(messages[..|messages| - 1], m) + if messages[|messages| - 1] == m then 1 else 0
  }

  predicate Cancels(s: Session) {
    s.CancelledConnecting? || (s.Connected? && (s.end.CancelledReceiving? || s.end.CancelledHandling?))
  }

  // No turn follows this one.
  predicate Ends(s: Session) {
    Cancels(s) || !s.after.GoesOn?
  }

  // The messages of a session that were received but neither published nor rejected.
  function Lost(s: Session): nat {
    if s.Connected? && (s.end.HandlingFails? || s.end.CancelledHandling?) then 1 else 0
  }

  // The counters after one more session.
  function Counted(m: Metrics, s: Session): Metrics {
    var messages := if s.Connected? then s.messages else [];
    Metrics(m.received + |messages| + Lost(s),
            m.published + Count(messages, Published),
            m.rejected + Count(messages, Rejected),
            m.disconnects + if Cancels(s) then 0 else 1)
  }

  function Tally(ss: seq<Session>): Metrics {
    if ss == [] then NO_METRICS else Counted(Tally(ss[..|ss| - 1]), ss[|ss| - 1])
  }

  lemma NoSessions(cap: nat)
    ensures Tally([]) == NO_METRICS && Waits([], cap) == [] && Failures([]) == 0
  {
  }

  lemma WaitsNext(ss: seq<Session>, n: nat, cap: nat)
    requires n < |ss|
    ensures Waits(ss[..n + 1], cap) ==
      Waits(ss[..n], cap) + if Cancels(ss[n]) then [] else [Backoff(Failures(ss[..n + 1]), cap)]
    ensures !Cancels(ss[n]) ==> Failures(ss[..n + 1]) == (if ss[n].Connected? then 0 else Failures(ss[..n])) + 1
  {
    assert ss[..n + 1][..n] == ss[..n];
  }

  lemma TallyNext(ss: seq<Session>, n: nat)
    requires n < |ss|
    ensures Tally(ss[..n + 1]) == Counted(Tally(ss[..n]), ss[n])
    ensures Count([], Published) == 0 && Count([], Rejected) == 0
  {
    assert ss[..n + 1][..n] == ss[..n];
  }

  function AllLost(ss: seq<Session>): nat {
    if ss == [] then 0 else AllLost(ss[..|ss| - 1]) + Lost(ss[|ss| - 1])
  }

  lemma {:induction false} CountIs(messages: seq<Message>, m: Message)
    ensures Count(messages, m) == multiset(messages)[m]
  {
    if messages != [] {
      var n := |messages| - 1;
      CountIs(messages[..n], m);
      assert messages == messages[..n] + [messages[n]];
    }
  }

  lemma {:induction false} EveryMessageCounted(messages: seq<Message>)
    ensures Count(messages, Published) + Count(messages, Rejected) == |messages|
  {
    if messages != [] {
      EveryMessageCounted(messages[..|messages| - 1]);
    }
  }

  lemma {:induction false} LostPerDisconnect(ss: seq<Session>)
    requires forall s :: s in ss ==> !Cancels(s)
    ensures AllLost(ss) <= Tally(ss).disconnects == |ss|
  {
    hide Count;
    if ss != [] {
      var n := |ss| - 1;
      assert ss[n] in ss && forall s :: s in ss[..n] ==> s in ss;
      LostPerDisconnect(ss[..n]);
    }
  }

  lemma {:induction false} AllCounted(ss: seq<Session>)
    ensures Tally(ss).received == Tally(ss).published + Tally(ss).rejected + AllLost(ss)
  {
    hide Count;
    if ss != [] {
      var n := |ss| - 1;
      AllCounted(ss[..n]);
      EveryMessageCounted(if ss[n].Connected? then ss[n].messages else []);
    }
  }

  // All messages of the sessions, in order.
  function Messages(ss: seq<Session>): seq<Message> {
    if ss == [] then []
    else
      var last := ss[|ss| - 1];
      Messages(ss[..|ss| - 1]) + if last.Connected? then last.messages else []
  }

  // The counters over any run: published and rejected count the messages of either kind.
  lemma {:induction false} CountersAre(ss: seq<Session>)
    ensures Tally(ss).published == multiset(Messages(ss))[Published]
    ensures Tally(ss).rejected == multiset(Messages(ss))[Rejected]
    ensures Tally(ss).received == |Messages(ss)| + AllLost(ss)
  {
    if ss != [] {
      hide Count, Cancels;
      var n := |ss| - 1;
      var messages := if ss[n].Connected? then ss[n].messages else [];
      CountersAre(ss[..n]);
      CountIs(messages, Published);
      CountIs(messages, Rejected);
    }
  }

  // received = published + rejected + lost; at every reconnect no more messages are lost than
  // there were disconnects, and a final cancellation can lose one more.
  lemma {:induction false} Accounting(ss: seq<Session>)
    ensures var m := Tally(ss);
      m.received == m.published + m.rejected + AllLost(ss)
    ensures (forall i :: 0 <= i < |ss| - 1 ==> !Cancels(ss[i])) ==> AllLost(ss) <= Tally(ss).disconnects + 1
    ensures (forall s :: s in ss ==> !Cancels(s)) ==> AllLost(ss) <= Tally(ss).disconnects == |ss|
  {
    hide Count, Cancels;
    AllCounted(ss);
    if forall s :: s in ss ==> !Cancels(s) {
      LostPerDisconnect(ss);
    }
    if ss != [] {
      var n := |ss| - 1;
      if forall i :: 0 <= i < n ==> !Cancels(ss[i]) {
        LostPerDisconnect(ss[..n]);
        assert Lost(ss[n]) <= 1;
      }
    }
  }

  // ---------- what the waits must be ----------

  // How many sessions in a row, the last included, have ended in a failure since a connection.
  function Failures(ss: seq<Session>): nat {
    if ss == [] then 0
    else
      var last := ss[|ss| - 1];
      if last.ConnectFails? then Failures(ss[..|ss| - 1]) + 1
      else if last.Connected? then (if Cancels(last) then 0 else 1)
      else Failures(ss[..|ss| - 1])
  }

  // One wait after every session that was not cancelled.
  function Waits(ss: seq<Session>, cap: nat): seq<nat> {
    if ss == [] then []
    else
      var earlier := Waits(ss[..|ss| - 1], cap);
      if Cancels(ss[|ss| - 1]) then earlier else earlier + [Backoff(Failures(ss), cap)]
  }

  // A wait after a lost connection, or the very first, is 2 seconds; after a connect that fails it
  // is twice the wait before; and none is over 32 seconds or the cap.
  predicate WaitsOk(ss: seq<Session>, waits: seq<nat>, cap: nat) {
    && |waits| == |ss|
    && (forall i :: 0 <= i < |ss| ==> Min(2, cap) <= waits[i] <= Min(32, cap))
    && (forall i :: 0 <= i < |ss| && (i == 0 || ss[i].Connected?) ==> waits[i] == Min(2, cap))
    && (forall i :: 0 < i < |ss| && !ss[i].Connected? ==> waits[i] == Min(2 * waits[i - 1], Min(32, cap)))
  }

  lemma OneMoreWait(ss: seq<Session>, waits: seq<nat>, cap: nat, s: Session, x: nat)
    requires WaitsOk(ss, waits, cap) && Min(2, cap) <= x <= Min(32, cap)
    requires ss == [] || s.Connected? ==> x == Min(2, cap)
    requires ss != [] && !s.Connected? ==> x == Min(2 * waits[|ss| - 1], Min(32, cap))
    ensures WaitsOk(ss + [s], waits + [x], cap)
  {
  }

  lemma LastWait(ss: seq<Session>, cap: nat)
    requires ss != [] && !Cancels(ss[|ss| - 1])
    ensures Waits(ss, cap) == Waits(ss[..|ss| - 1], cap) + [Backoff(Failures(ss), cap)]
    ensures Failures(ss) == (if ss[|ss| - 1].Connected? then 0 else Failures(ss[..|ss| - 1])) + 1
  {
  }

  lemma PreviousWait(ss: seq<Session>, cap: nat)
    requires ss != [] && !Cancels(ss[|ss| - 1]) && WaitsOk(ss, Waits(ss, cap), cap)
    ensures |Waits(ss, cap)| == |ss| && Waits(ss, cap)[|ss| - 1] == Backoff(Failures(ss), cap)
  {
    hide Waits, Failures, Backoff;
    LastWait(ss, cap);
  }

  lemma {:induction false} BackoffRule(ss: seq<Session>, cap: nat)
    requires forall s :: s in ss ==> !Cancels(s)
    ensures WaitsOk(ss, Waits(ss, cap), cap)
    ensures ss != [] ==> Failures(ss) > 0
    ensures ss == [] ==> Failures(ss) == 0
  {
    if ss != [] {
      hide WaitsOk, Waits, Failures, Backoff, Cancels;
      var n := |ss| - 1;
      var earlier := ss[..n];
      assert ss == earlier + [ss[n]] && ss[n] in ss && forall s :: s in earlier ==> s in ss;
      BackoffRule(earlier, cap);
      LastWait(ss, cap);
      if n > 0 {
        assert earlier[n - 1] in earlier;
        PreviousWait(earlier, cap);
        BackoffRange(Failures(earlier), cap);
      }
      BackoffRange(1, cap);
      BackoffRange(Failures(ss), cap);
      OneMoreWait(earlier, Waits(earlier, cap), cap, ss[n], Backoff(Failures(ss), cap));
    }
  }

  class ProducerLoop {
    const cap: nat
    var metrics: Metrics
    var consecutiveFailures: nat
    var waits: seq<nat>

    constructor (maxBackoffSeconds: nat)
      ensures cap == maxBackoffSeconds && metrics == NO_METRICS && consecutiveFailures == 0 && waits == []
    {
      cap := maxBackoffSeconds;
      metrics, consecutiveFailures, waits := NO_METRICS, 0, [];
    }

    // The except branch.
    method WaitAfterFailure()
      modifies this
      ensures consecutiveFailures == old(consecutiveFailures) + 1
      ensures metrics == old(metrics).(disconnects := old(metrics).disconnects + 1)
      ensures waits == old(waits) + [Backoff(consecutiveFailures, cap)]
    {
      metrics := metrics.(disconnects := metrics.disconnects + 1);
      consecutiveFailures := consecutiveFailures + 1;
      waits := waits + [Backoff(consecutiveFailures, cap)];
    }

    // The inner loop over one connection.
    method Receive(messages: seq<Message>, end: End)
      modifies this`metrics
      ensures metrics == Metrics(old(metrics).received + |messages| + Lost(Connected(messages, end, GoesOn)),
                                 old(metrics).published + Count(messages, Published),
                                 old(metrics).rejected + Count(messages, Rejected),
                                 old(metrics).disconnects)
      ensures metrics.received ==
        old(metrics).received + |messages| + if end.HandlingFails? || end.CancelledHandling? then 1 else 0
      ensures metrics.published == old(metrics).published + multiset(messages)[Published]
      ensures metrics.rejected == old(metrics).rejected + multiset(messages)[Rejected]
    {
      var i := 0;
      while i < |messages|
        invariant 0 <= i <= |messages|
        invariant metrics == Metrics(old(metrics).received + i,
                                     old(metrics).published + Count(messages[..i], Published),
                                     old(metrics).rejected + Count(messages[..i], Rejected),
                                     old(metrics).disconnects)
      {
        assert messages[..i + 1][..i] == messages[..i];
        metrics := metrics.(received := metrics.received + 1);
        if messages[i] == Rejected {
          metrics := metrics.(rejected := metrics.rejected + 1);
        } else {
          metrics := metrics.(published := metrics.published + 1);
        }
        i := i + 1;
      }
      assert messages[..|messages|] == messages;
      CountIs(messages, Published);
      CountIs(messages, Rejected);
      if end.HandlingFails? || end.CancelledHandling? {
        metrics := metrics.(received := metrics.received + 1);
      }
    }

    // run_producer until a turn ends the loop, or until the given sessions are over.
    method Run(ss: seq<Session>) returns (n: nat)
      requires consecutiveFailures == 0 && metrics == NO_METRICS && waits == []
      modifies this
      ensures n <= |ss| && metrics == Tally(ss[..n]) && waits == Waits(ss[..n], cap)
      ensures forall i :: 0 <= i < n - 1 ==> !Ends(ss[i])
      ensures n < |ss| ==> n > 0 && Ends(ss[n - 1])
      ensures forall i :: 0 <= i < n - 1 ==>
        && ss[i].after.GoesOn? && !ss[i].CancelledConnecting?
        && (ss[i].Connected? ==> ss[i].end.ReceiveFails? || ss[i].end.HandlingFails?)
      ensures n < |ss| ==>
        || !ss[n - 1].after.GoesOn? || ss[n - 1].CancelledConnecting?
        || (ss[n - 1].Connected? && (ss[n - 1].end.CancelledReceiving? || ss[n - 1].end.CancelledHandling?))
    {
      hide Backoff, Count, Tally, Waits, Failures;
      n := 0;
      NoSessions(cap);
      assert ss[..0] == [];
      while n < |ss|
        invariant n <= |ss| && metrics == Tally(ss[..n]) && waits == Waits(ss[..n], cap)
        invariant consecutiveFailures == Failures(ss[..n])
        invariant forall i :: 0 <= i < n ==> !Ends(ss[i])
      {
        var s := ss[n];
        TallyNext(ss, n);
        WaitsNext(ss, n, cap);
        n := n + 1;
        if s.Connected? {
          consecutiveFailures := 0;
          Receive(s.messages, s.end);
        }
        if Cancels(s) {
          return;
        }
        WaitAfterFailure();
        if Ends(s) {
          return;
        }
      }
    }
  }
}

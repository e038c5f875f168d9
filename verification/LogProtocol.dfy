/** Producers and the single logger thread around the ring, over every interleaving. */
module LogProtocol {
  import opened Tally
  import opened LogRing

  datatype Consumer =
    | Checking     // about to take the lock
    | Asleep       // inside pthread_cond_wait
    | Writing      // has a batch, lock released
    | Exited

  /** A producer reads the running flag before it takes the lock. */
  datatype Producer = Outside | Admitted(text: string)

  /** `accepted` are the entries enqueued, `handed` those given to the write loop, both in order;
      `acceptedAtExit` is how many had been accepted when the logger thread left. */
  datatype State = State(ring: Ring, running: bool, consumer: Consumer, producers: seq<Producer>,
                         accepted: seq<string>, handed: seq<string>, acceptedAtExit: nat)

  datatype Step =
    | Admit(i: nat, text: string)
    | Enqueue(i: nat)
    | WakeSpuriously
    | Check
    | WriteOut
    | Shutdown

  function Init(producers: nat): State {
    State(Initial(seq(POOL_SIZE, i => "")), true, Checking, seq(producers, i => Outside), [], [], 0)
  }

  predicate Enabled(s: State, step: Step) {
    match step
    case Admit(i, _) => i < |s.producers| && s.producers[i].Outside?
    case Enqueue(i) => i < |s.producers| && s.producers[i].Admitted?
    case WakeSpuriously => s.consumer.Asleep?
    case Check => s.consumer.Checking?
    case WriteOut => s.consumer.Writing?
    case Shutdown => s.running
  }

  function Wake(consumer: Consumer): Consumer {
    if consumer.Asleep? then Checking else consumer
  }

  /** The critical section of `try_enqueue_log`: the signal is sent only when the ring was empty. The
      bound on the buffer index is always met (`Balanced`). */
  function DoEnqueue(s: State, i: nat): State
    requires i < |s.producers| && s.producers[i].Admitted?
  {
    var idle := s.(producers := s.producers[i := Outside]);
    var text := s.producers[i].text;
    if HasRoom(s.ring) && s.ring.free[|s.ring.free| - 1] < |s.ring.texts| then
      idle.(ring := Push(s.ring, text), accepted := s.accepted + [text],
            consumer := if s.ring.queued == [] then Wake(s.consumer) else s.consumer)
    else idle
  }

  function DoCheck(s: State): State {
    if s.ring.queued == [] then
      if s.running then s.(consumer := Asleep)
      else s.(consumer := Exited, acceptedAtExit := |s.accepted|)
    else s.(ring := Grab(s.ring), consumer := Writing)
  }

  /** The batch is written from the buffers as they are when the write happens. */
  function DoWrite(s: State): State {
    var texts := if |s.ring.texts| == POOL_SIZE then TextsOf(s.ring, s.ring.inflight) else [];
    s.(ring := GiveBack(s.ring), consumer := Checking, handed := s.handed + texts)
  }

  function Apply(s: State, step: Step): State
    requires Enabled(s, step)
  {
    match step
    case Admit(i, text) => if s.running then s.(producers := s.producers[i := Admitted(text)]) else s
    case Enqueue(i) => DoEnqueue(s, i)
    case WakeSpuriously => s.(consumer := Checking)
    case Check => DoCheck(s)
    case WriteOut => DoWrite(s)
    case Shutdown => s.(running := false, consumer := Wake(s.consumer))
  }

  predicate Legal(producers: nat, run: seq<Step>)
    decreases |run|, 0
  {
    run == [] ||
    var last := |run| - 1;
    Legal(producers, run[..last]) && Enabled(Exec(producers, run[..last]), run[last])
  }

  function Exec(producers: nat, run: seq<Step>): State
    requires Legal(producers, run)
    decreases |run|, 1
  {
    if run == [] then Init(producers)
    else
      var last := |run| - 1;
      Apply(Exec(producers, run[..last]), run[last])
  }

  // ---------- what every run keeps ----------

  ghost predicate InStep(s: State) {
    && Balanced(s.ring)
    && (!s.consumer.Writing? ==> s.ring.inflight == [])
    && (s.consumer.Asleep? ==> s.ring.queued == [] && s.running)
    && s.accepted == s.handed + TextsOf(s.ring, s.ring.inflight) + TextsOf(s.ring, s.ring.queued)
    && (s.consumer.Exited? ==> !s.running && s.acceptedAtExit == |s.handed|)
  }

  lemma EnqueueInStep(s: State, i: nat)
    requires InStep(s) && Enabled(s, Enqueue(i))
    ensures InStep(DoEnqueue(s, i))
  {
    hide Balanced;
    if s.ring.free != [] {
      PushBalanced(s.ring, s.producers[i].text);
      PushKeepsOthers(s.ring, s.producers[i].text);
    }
  }

  lemma CheckInStep(s: State)
    requires InStep(s) && s.consumer.Checking?
    ensures InStep(DoCheck(s))
  {
    hide Balanced;
    var n := Min(|s.ring.queued|, BATCH_SIZE);
    GrabBalanced(s.ring);
    assert TextsOf(s.ring, s.ring.queued) == TextsOf(s.ring, s.ring.queued[..n]) + TextsOf(s.ring, s.ring.queued[n..]);
    assert TextsOf(s.ring, s.ring.inflight) == [];
  }

  lemma WriteInStep(s: State)
    requires InStep(s) && s.consumer.Writing?
    ensures InStep(DoWrite(s))
  {
    hide Balanced;
    GiveBackBalanced(s.ring);
    var s' := DoWrite(s);
    assert TextsOf(s'.ring, s'.ring.queued) == TextsOf(s.ring, s.ring.queued);
    assert TextsOf(s'.ring, s'.ring.inflight) == [];
  }

  lemma InStepKept(s: State, step: Step)
    requires InStep(s) && Enabled(s, step)
    ensures InStep(Apply(s, step))
  {
    hide Balanced;
    match step {
      case Enqueue(i) => EnqueueInStep(s, i);
      case Check => CheckInStep(s);
      case WriteOut => WriteInStep(s);
      case _ =>
    }
  }

  /** Main result: in every run the 4096 buffers are partitioned between stack, ring and batch; the
      entries handed to the write loop, the batch and the ring are together exactly the accepted
      entries in order; the consumer never sleeps on a non-empty ring, although it is signalled only
      when the ring was empty. */
  lemma {:induction false} LoggerHolds(producers: nat, run: seq<Step>)
    requires Legal(producers, run)
    ensures InStep(Exec(producers, run))
    decreases |run|
  {
    hide Apply, Enabled, Balanced;
    if run == [] {
      InitialBalanced(seq(POOL_SIZE, i => ""));
    } else {
      var last := |run| - 1;
      LoggerHolds(producers, run[..last]);
      InStepKept(Exec(producers, run[..last]), run[last]);
    }
  }

  /** Everything accepted before the logger thread left was handed to the write loop; the whole history
      was if and only if nothing was accepted after that. */
  lemma HandedAllIffNoneLate(producers: nat, run: seq<Step>)
    requires Legal(producers, run) && Exec(producers, run).consumer.Exited?
    ensures var s := Exec(producers, run);
      && s.acceptedAtExit <= |s.accepted| && s.handed == s.accepted[..s.acceptedAtExit]
      && (s.handed == s.accepted <==> |s.accepted| == s.acceptedAtExit)
  {
    hide Exec, Legal, Balanced;
    LoggerHolds(producers, run);
  }

  /** An accepted entry will never be written: the logger thread left before it came. */
  predicate Lost(s: State) {
    s.consumer.Exited? && s.accepted != s.handed
  }

  predicate AnyAdmitted(s: State) {
    exists i :: 0 <= i < |s.producers| && s.producers[i].Admitted?
  }

  lemma AllHanded(s: State)
    requires InStep(s) && !s.consumer.Writing? && s.ring.queued == []
    ensures s.accepted == s.handed
  {
    assert TextsOf(s.ring, s.ring.queued) == [] && TextsOf(s.ring, s.ring.inflight) == [];
  }

  /** After the shutdown, with no producer past its flag check, a step loses nothing and admits nobody. */
  lemma QuietStep(s: State, step: Step)
    requires InStep(s) && Enabled(s, step) && !s.running && !AnyAdmitted(s) && !Lost(s)
    ensures var s' := Apply(s, step); !s'.running && !AnyAdmitted(s') && !Lost(s')
  {
    if step.Check? && s.ring.queued == [] {
      AllHanded(s);
    }
  }

  lemma {:induction false} QuietStaysQuiet(producers: nat, run: seq<Step>, more: seq<Step>)
    requires Legal(producers, run) && Legal(producers, run + more)
    requires var s := Exec(producers, run); !s.running && !AnyAdmitted(s) && !Lost(s)
    ensures var s := Exec(producers, run + more); !s.running && !AnyAdmitted(s) && !Lost(s)
    decreases |more|
  {
    hide InStep, Apply, Enabled, AnyAdmitted, Lost;
    if more == [] {
      assert run + more == run;
    } else {
      var last := |more| - 1;
      assert (run + more)[..|run| + last] == run + more[..last] && (run + more)[|run| + last] == more[last];
      QuietStaysQuiet(producers, run, more[..last]);
      LoggerHolds(producers, run + more[..last]);
      QuietStep(Exec(producers, run + more[..last]), more[last]);
    }
  }

  function DrainRank(s: State): nat {
    match s.consumer
    case Exited => 0
    case Writing => 2
    case _ => 1
  }

  /** One step of the logger thread on its way out. */
  function DrainStep(s: State): Step {
    if s.consumer.Writing? then WriteOut else Check
  }

  lemma DrainStepDrains(s: State)
    requires InStep(s) && !s.running && !s.consumer.Exited?
    ensures Enabled(s, DrainStep(s))
    ensures var s' := Apply(s, DrainStep(s));
      && !s'.running && !Lost(s') && s'.producers == s.producers
      && |s'.ring.queued| <= |s.ring.queued|
      && (|s'.ring.queued| == |s.ring.queued| ==> DrainRank(s') < DrainRank(s))
  {
    if s.consumer.Checking? && s.ring.queued == [] {
      AllHanded(s);
    }
  }

  /** After the shutdown the logger thread can empty the ring and leave while the producers stand still. */
  lemma {:induction false} Drain(producers: nat, run: seq<Step>) returns (more: seq<Step>)
    requires Legal(producers, run) && !Exec(producers, run).running && !Lost(Exec(producers, run))
    ensures Legal(producers, run + more)
    ensures var s := Exec(producers, run + more);
      s.consumer.Exited? && !Lost(s) && s.producers == Exec(producers, run).producers
    decreases |Exec(producers, run).ring.queued|, DrainRank(Exec(producers, run))
  {
    hide InStep, Apply, Enabled, Lost;
    var s := Exec(producers, run);
    if s.consumer.Exited? {
      more := [];
      assert run + more == run;
    } else {
      LoggerHolds(producers, run);
      DrainStepDrains(s);
      var step := DrainStep(s);
      Extend(producers, run, step);
      var rest := Drain(producers, run + [step]);
      more := [step] + rest;
      assert run + more == run + [step] + rest;
    }
  }

  lemma HandOverStep(s: State)
    requires InStep(s) && s.accepted != s.handed && !s.consumer.Exited?
    ensures Enabled(s, DrainStep(s))
    ensures var s' := Apply(s, DrainStep(s));
      && !s'.consumer.Exited? && s'.producers == s.producers && s'.accepted == s.accepted && s'.running == s.running
      && |s'.ring.queued| <= |s.ring.queued|
      && (|s'.ring.queued| == |s.ring.queued| ==> DrainRank(s') < DrainRank(s))
  {
    if !s.consumer.Writing? && s.ring.queued == [] {
      AllHanded(s);
    }
  }

  /** While the logger thread lives, running or not, its own steps hand over everything accepted so far. */
  lemma {:induction false} HandOver(producers: nat, run: seq<Step>) returns (more: seq<Step>)
    requires Legal(producers, run) && !Lost(Exec(producers, run))
    ensures Legal(producers, run + more)
    ensures var s := Exec(producers, run + more);
      s.handed == s.accepted == Exec(producers, run).accepted && s.producers == Exec(producers, run).producers
    decreases |Exec(producers, run).ring.queued|, DrainRank(Exec(producers, run))
  {
    hide InStep, Apply, Enabled;
    var s := Exec(producers, run);
    if s.accepted == s.handed {
      more := [];
      assert run + more == run;
    } else {
      LoggerHolds(producers, run);
      HandOverStep(s);
      var step := DrainStep(s);
      Extend(producers, run, step);
      var rest := HandOver(producers, run + [step]);
      more := [step] + rest;
      assert run + more == run + [step] + rest;
    }
  }

  lemma LateEnqueueLoses(s: State, i: nat)
    requires InStep(s) && s.consumer.Exited? && !Lost(s) && i < |s.producers| && s.producers[i].Admitted?
    ensures Enabled(s, Enqueue(i)) && Lost(Apply(s, Enqueue(i)))
  {
    assert |TextsOf(s.ring, s.ring.queued)| == 0;
    BalancedSize(s.ring);
    TopExists(s.ring);
    assert |Apply(s, Enqueue(i)).accepted| == |s.accepted| + 1;
  }

  /** In every reachable state after the shutdown in which nothing was lost yet: some continuation loses an
      entry exactly when a producer has read the running flag and not yet taken the lock. */
  lemma EntryCanBeLostIff(producers: nat, run: seq<Step>)
    requires Legal(producers, run) && !Exec(producers, run).running && !Lost(Exec(producers, run))
    ensures
      (exists more :: Legal(producers, run + more) && Lost(Exec(producers, run + more))) <==> AnyAdmitted(Exec(producers, run))
  {
    hide InStep, Apply, Enabled, Lost;
    var s := Exec(producers, run);
    if i :| 0 <= i < |s.producers| && s.producers[i].Admitted? {
      var more := Drain(producers, run);
      LoggerHolds(producers, run + more);
      LateEnqueueLoses(Exec(producers, run + more), i);
      Extend(producers, run + more, Enqueue(i));
      assert run + (more + [Enqueue(i)]) == run + more + [Enqueue(i)];
    } else {
      forall more | Legal(producers, run + more) ensures !Lost(Exec(producers, run + more)) {
        QuietStaysQuiet(producers, run, more);
      }
    }
  }

  /** "Every accepted entry is written" fails: a producer that read the running flag before the
      shutdown can still enqueue after the logger thread left. */
  lemma LateEntryIsLost()
    ensures var run := [Admit(0, "x"), Shutdown, Check, Enqueue(0)];
      && Legal(1, run)
      && Exec(1, run).accepted == ["x"] && Exec(1, run).handed == [] && Exec(1, run).consumer.Exited?
  {
    Extend(1, [], Admit(0, "x"));
    Extend(1, [Admit(0, "x")], Shutdown);
    Extend(1, [Admit(0, "x")] + [Shutdown], Check);
    Extend(1, [Admit(0, "x")] + [Shutdown] + [Check], Enqueue(0));
    assert [Admit(0, "x")] + [Shutdown] + [Check] + [Enqueue(0)] == [Admit(0, "x"), Shutdown, Check, Enqueue(0)];
  }

  lemma Extend(producers: nat, run: seq<Step>, step: Step)
    requires Legal(producers, run) && Enabled(Exec(producers, run), step)
    ensures Legal(producers, run + [step])
    ensures Exec(producers, run + [step]) == Apply(Exec(producers, run), step)
  {
    assert (run + [step])[..|run + [step]| - 1] == run;
  }
}

/** The reaper's index scan while every other thread keeps erasing and appending. */
module ReaperScan {
  import opened Prelude
  import opened Executor
  import opened ExecutorRuns

  /** Steps of any thread, as long as the reaper stays in one pass. */
  ghost predicate OnePass(steps: seq<Step>) {
    forall step :: step in steps ==> !step.EndPass?
  }

  /** Mid-pass: the reaper has an index. */
  predicate Scanning(e: Exec) {
    !e.reaper.PassDone? && !e.reaper.ReaperExited?
  }

  predicate Looks(e: Exec, step: Step) {
    step.Pick? && e.reaper.Picking? && e.reaper.index < |e.pending|
  }

  /** The entries looked at during the steps. */
  ghost function Polled(e: Exec, steps: seq<Step>): set<Id>
    requires Legal(e, steps)
    decreases |steps|
  {
    if steps == [] then {}
    else Seen(e, steps[0]) + Polled(Apply(e, steps[0]), steps[1..])
  }

  /** How many looks the steps contain. */
  ghost function Looked(e: Exec, steps: seq<Step>): nat
    requires Legal(e, steps)
    decreases |steps|
  {
    if steps == [] then 0
    else (if Looks(e, steps[0]) then 1 else 0) + Looked(Apply(e, steps[0]), steps[1..])
  }

  /** Entries of `original` still pending, left behind by the index and never looked at. */
  ghost function Missed(e: Exec, original: set<Id>, polled: set<Id>): set<Id>
    requires Scanning(e)
  {
    set id | id in original && id !in polled && Behind(e, id)
  }

  ghost predicate Behind(e: Exec, id: Id)
    requires Scanning(e)
  {
    exists i :: 0 <= i < |e.pending| && i < e.reaper.index && e.pending[i] == id
  }

  lemma SubsetSize<T>(a: set<T>, b: set<T>)
    requires a <= b
    ensures |a| <= |b|
  {
    assert b == a + (b - a);
  }

  /** An erasure puts at most one entry more behind the index: the one just ahead of it. */
  lemma EraseMisses(e: Exec, f: Exec, p: nat, original: set<Id>, polled: set<Id>)
    requires Scanning(e) && Scanning(f) && f.reaper.index == e.reaper.index
    requires Distinct(e.pending) && p < |e.pending| && f.pending == Erase(e.pending, e.pending[p])
    ensures |Missed(f, original, polled)| <= |Missed(e, original, polled)| + 1
  {
    EraseAt(e.pending, p);
    var ahead := if e.reaper.index < |e.pending| then {e.pending[e.reaper.index]} else {};
    forall id | id in Missed(f, original, polled) ensures id in Missed(e, original, polled) + ahead {
      var i :| 0 <= i < |f.pending| && i < f.reaper.index && f.pending[i] == id;
      assert f.pending[i] == e.pending[if i < p then i else i + 1];
    }
    SubsetSize(Missed(f, original, polled), Missed(e, original, polled) + ahead);
  }

  ghost function Seen(e: Exec, step: Step): set<Id> {
    if Looks(e, step) then {e.pending[e.reaper.index]} else {}
  }

  lemma ErasureMisses(e: Exec, step: Step, original: set<Id>, polled: set<Id>)
    requires Valid(e) && Enabled(e, step) && (step.EraseReturned? || step.Release?)
    requires Scanning(e) && Scanning(Apply(e, step))
    ensures var f := Apply(e, step);
      && f.released == e.released + 1
      && |Missed(f, original, polled)| <= |Missed(e, original, polled)| + 1
  {
    var id := if step.Release? then e.reaper.id else e.workers[step.w].id;
    if step.EraseReturned? {
      WorkerOwns(e, step.w);
    }
    var p :| 0 <= p < |e.pending| && e.pending[p] == id;
    EraseMisses(e, Apply(e, step), p, original, polled);
  }

  lemma QuietMisses(e: Exec, step: Step, original: set<Id>, polled: set<Id>)
    requires Enabled(e, step) && !step.EndPass? && !step.EraseReturned? && !step.Release?
    requires Scanning(e) && Scanning(Apply(e, step)) && original <= e.invocations.Keys
    ensures var f := Apply(e, step);
      && f.released == e.released
      && Missed(f, original, polled + Seen(e, step)) <= Missed(e, original, polled)
  {}

  lemma StepMisses(e: Exec, step: Step, original: set<Id>, polled: set<Id>)
    requires Valid(e) && Enabled(e, step) && !step.EndPass? && Scanning(e) && Scanning(Apply(e, step))
    requires original <= e.invocations.Keys
    ensures var f := Apply(e, step);
      |Missed(f, original, polled + Seen(e, step))| <= |Missed(e, original, polled)| + f.released - e.released
    ensures original <= Apply(e, step).invocations.Keys
  {
    if step.EraseReturned? || step.Release? {
      ErasureMisses(e, step, original, polled);
      assert polled + {} == polled;
    } else {
      QuietMisses(e, step, original, polled);
      SubsetSize(Missed(Apply(e, step), original, polled + Seen(e, step)), Missed(e, original, polled));
    }
  }

  lemma UnionAssociates<T>(a: set<T>, b: set<T>, c: set<T>)
    ensures a + (b + c) == (a + b) + c
    ensures a + {} == a
  {}

  lemma {:induction false} ScanMisses(e: Exec, steps: seq<Step>, original: set<Id>, polled: set<Id>)
    requires Valid(e) && Legal(e, steps) && OnePass(steps) && Scanning(e) && Scanning(After(e, steps))
    requires original <= e.invocations.Keys
    ensures |Missed(After(e, steps), original, polled + Polled(e, steps))|
         <= |Missed(e, original, polled)| + After(e, steps).released - e.released
    decreases |steps|
  {
    if steps == [] {
      UnionAssociates(polled, {}, {});
    } else {
      var f := Apply(e, steps[0]);
      StepKeepsValid(e, steps[0]);
      StaysScanning(f, steps[1..]);
      StepMisses(e, steps[0], original, polled);
      ScanMisses(f, steps[1..], original, polled + Seen(e, steps[0]));
      UnionAssociates(polled, Seen(e, steps[0]), Polled(f, steps[1..]));
    }
  }

  /** A pass that is over does not resume. */
  lemma {:induction false} StaysScanning(e: Exec, steps: seq<Step>)
    requires Legal(e, steps) && OnePass(steps) && Scanning(After(e, steps))
    ensures Scanning(e)
    decreases |steps|
  {
    if steps != [] {
      StaysScanning(Apply(e, steps[0]), steps[1..]);
    }
  }

  /** Entries pending throughout a whole pass that the reaper never looked at number at most the
      erasures during the pass, whoever made them. */
  lemma PassMissesAtMostErasures(e: Exec, steps: seq<Step>)
    requires Valid(e) && e.reaper == Picking(0) && Legal(e, steps) && OnePass(steps)
    requires var f := After(e, steps); f.reaper.Picking? && f.reaper.index >= |f.pending|
    ensures var f := After(e, steps);
      var missed := set id | id in e.pending && id in f.pending && id !in Polled(e, steps);
      |missed| <= f.released - e.released
  {
    var f := After(e, steps);
    var original := Elements(e.pending);
    ScanMisses(e, steps, original, {});
    assert Missed(e, original, {}) == {};
    assert {} + Polled(e, steps) == Polled(e, steps);
    assert Missed(f, original, Polled(e, steps)) ==
      set id | id in e.pending && id in f.pending && id !in Polled(e, steps);
  }

  ghost predicate CapBelow(step: Step, cap: nat) {
    step.Admit? ==> step.cap <= cap
  }

  /** The pending list stays within the admission bound. */
  lemma CapKept(e: Exec, step: Step, cap: nat)
    requires Valid(e) && Enabled(e, step) && |e.pending| <= cap && CapBelow(step, cap)
    ensures |Apply(e, step).pending| <= cap
  {
    if step.EraseReturned? {
      WorkerOwns(e, step.w);
      EraseDistinct(e.pending, e.workers[step.w].id);
    } else if step.Release? {
      EraseDistinct(e.pending, e.reaper.id);
    }
  }

  /** However the list changes, a pass looks at no more than `cap` entries. */
  lemma {:induction false} PassEndsWithinCap(e: Exec, steps: seq<Step>, cap: nat)
    requires Valid(e) && Legal(e, steps) && OnePass(steps)
    requires Scanning(e) && e.reaper.index <= cap && |e.pending| <= cap
    requires forall step :: step in steps ==> CapBelow(step, cap)
    ensures e.reaper.index + Looked(e, steps) <= cap
    decreases |steps|
  {
    if steps != [] {
      var f := Apply(e, steps[0]);
      StepKeepsValid(e, steps[0]);
      CapKept(e, steps[0], cap);
      if Scanning(f) {
        PassEndsWithinCap(f, steps[1..], cap);
      } else {
        NothingLeftToLook(f, steps[1..]);
      }
    }
  }

  lemma {:induction false} NothingLeftToLook(e: Exec, steps: seq<Step>)
    requires Legal(e, steps) && OnePass(steps) && !Scanning(e)
    ensures Looked(e, steps) == 0
    decreases |steps|
  {
    if steps != [] {
      NothingLeftToLook(Apply(e, steps[0]), steps[1..]);
    }
  }
}

/**
 The request recorder: many writers, one draining goroutine, and a shutdown that may be
 requested any number of times.

 A writer holds the read side of a lock while it checks the closed flag and sends on a bounded
 channel; the first closer takes the write side, sets the flag, closes the channel, and waits
 for the drainer; other closers wait for the first.  Every lock, channel and flag operation is
 one step, and the steps interleave freely.  Writes are named by the index of the writer.
 */
module Recorder {
  import opened Shared

  datatype WriterPhase =
    | Preparing          // serialising the record
    | Reading            // holds the read lock
    | Sending            // found the recorder open, about to send
    | Unlocking(ok: bool)
    | Returned(ok: bool)
    | Unserialisable     // returned the serialisation error

  datatype CloserPhase = Calling | Locking | Locked | Flagged | Releasing | Draining | Closed

  datatype DrainPhase = Receiving | Appending(w: nat) | Filing(w: nat) | Exited

  datatype Once = Unused | Running | Finished

  datatype State = State(
    capacity: nat,
    channel: seq<nat>,
    channelClosed: bool,
    panicked: bool,
    closed: bool,
    lock: RWLock,
    once: Once,
    drainer: DrainPhase,
    records: seq<nat>,
    file: seq<nat>,
    accepted: seq<nat>,
    writers: seq<WriterPhase>,
    closers: seq<CloserPhase>)

  datatype RWLock = RWLock(readers: nat, writerWaiting: bool, writerHolding: bool)

  /** The next step of a writer (whose record may turn out not to be serialisable), of a closer,
      or of the drainer; what it is follows from where the goroutine stands. */
  datatype Action = Write(w: nat, serialisable: bool) | Close(c: nat) | Drain

  predicate CanWrite(s: State, p: WriterPhase, serialisable: bool) {
    match p
    // a waiting writer keeps new readers out
    case Preparing => !serialisable || (!s.lock.writerHolding && !s.lock.writerWaiting)
    case Sending => s.channelClosed || |s.channel| < s.capacity
    case Reading => true
    case Unlocking(_) => true
    case _ => false
  }

  predicate CanClose(s: State, p: CloserPhase) {
    match p
    case Calling => s.once != Running
    case Locking => s.lock.readers == 0
    case Draining => s.drainer == Exited
    case _ => p != Closed
  }

  predicate CanDrain(s: State) {
    match s.drainer
    case Receiving => s.channel != [] || s.channelClosed
    case _ => s.drainer != Exited
  }

  predicate Enabled(s: State, a: Action) {
    && !s.panicked
    && match a
       case Write(w, ok) => w < |s.writers| && CanWrite(s, s.writers[w], ok)
       case Close(c) => c < |s.closers| && CanClose(s, s.closers[c])
       case Drain => CanDrain(s)
  }

  function SetWriter(s: State, w: nat, p: WriterPhase): State
    requires w < |s.writers|
  {
    s.(writers := s.writers[w := p])
  }

  function SetCloser(s: State, c: nat, p: CloserPhase): State
    requires c < |s.closers|
  {
    s.(closers := s.closers[c := p])
  }

  function WriteStep(s: State, w: nat, serialisable: bool): State
    requires Enabled(s, Write(w, serialisable))
  {
    match s.writers[w]
    case Preparing =>
      if !serialisable then SetWriter(s, w, Unserialisable)
      else SetWriter(s, w, Reading).(lock := s.lock.(readers := s.lock.readers + 1))
    case Reading => SetWriter(s, w, if s.closed then Unlocking(false) else Sending)
    case Sending =>
      if s.channelClosed then s.(panicked := true)
      else SetWriter(s, w, Unlocking(true)).(channel := s.channel + [w], accepted := s.accepted + [w])
    case Unlocking(ok) =>
      SetWriter(s, w, Returned(ok)).(lock := s.lock.(readers := if s.lock.readers == 0 then 0 else s.lock.readers - 1))
  }

  function CloseStep(s: State, c: nat): State
    requires Enabled(s, Close(c))
  {
    match s.closers[c]
    case Calling =>
      if s.once == Finished then SetCloser(s, c, Closed)
      else SetCloser(s, c, Locking).(once := Running, lock := s.lock.(writerWaiting := true))
    case Locking => SetCloser(s, c, Locked).(lock := s.lock.(writerWaiting := false, writerHolding := true))
    case Locked => SetCloser(s, c, Flagged).(closed := true)
    case Flagged =>
      if s.channelClosed then s.(panicked := true)
      else SetCloser(s, c, Releasing).(channelClosed := true)
    case Releasing => SetCloser(s, c, Draining).(lock := s.lock.(writerHolding := false))
    case Draining => SetCloser(s, c, Closed).(once := Finished)
  }

  function DrainStep(s: State): State
    requires Enabled(s, Drain)
  {
    match s.drainer
    case Receiving =>
      if s.channel == [] then s.(drainer := Exited)
      else s.(channel := s.channel[1..], drainer := Appending(s.channel[0]))
    case Appending(w) => s.(records := s.records + [w], drainer := Filing(w))
    case Filing(w) => s.(file := s.file + [w], drainer := Receiving)
  }

  function Apply(s: State, a: Action): State
    requires Enabled(s, a)
  {
    match a
    case Write(w, ok) => WriteStep(s, w, ok)
    case Close(c) => CloseStep(s, c)
    case Drain => DrainStep(s)
  }

  /** Call `c` of Close has returned. */
  predicate HasClosed(s: State, c: nat) { c < |s.closers| && s.closers[c] == Closed }

  ghost predicate Init(s: State) {
    && s == State(s.capacity, [], false, false, false, RWLock(0, false, false), Unused, Receiving, [], [], [], s.writers, s.closers)
    && s.capacity >= 1
    && (forall w | 0 <= w < |s.writers| :: s.writers[w] == Preparing)
    && (forall c | 0 <= c < |s.closers| :: s.closers[c] == Calling)
  }

  /** The i-th step of a run is an enabled action with its effect. */
  ghost predicate StepAt(run: seq<State>, acts: seq<Action>, i: nat) {
    i < |acts| && i + 1 < |run| && Enabled(run[i], acts[i]) && run[i + 1] == Apply(run[i], acts[i])
  }

  ghost predicate IsRun(run: seq<State>, acts: seq<Action>) {
    && |run| == |acts| + 1
    && Init(run[0])
    && forall i | 0 <= i < |acts| :: StepAt(run, acts, i)
  }

  // ---------------------------------------------------------------- invariant

  predicate HoldsRead(p: WriterPhase) { p.Reading? || p.Sending? || p.Unlocking? }

  predicate Refused(p: WriterPhase) { (p.Unlocking? || p.Returned?) && !p.ok }

  predicate Accepted(p: WriterPhase) { (p.Unlocking? || p.Returned?) && p.ok }

  /** Writers that hold the read lock. */
  function ReadCount(ws: seq<WriterPhase>): nat { Total(ReadWeight, ws) }

  function ReadWeight(p: WriterPhase): nat { if HoldsRead(p) then 1 else 0 }

  predicate Distinct(s: seq<nat>) { forall i, j | 0 <= i < j < |s| :: s[i] != s[j] }

  /** The record the drainer has received but not yet appended. */
  function InHand(d: DrainPhase): seq<nat> { if d.Appending? then [d.w] else [] }

  function Unfiled(d: DrainPhase): seq<nat> { if d.Filing? then [d.w] else [] }

  predicate InSection(p: CloserPhase) { !p.Calling? && !p.Closed? }

  ghost predicate DataInv(s: State) {
    && s.accepted == s.records + InHand(s.drainer) + s.channel
    && s.records == s.file + Unfiled(s.drainer)
    && Distinct(s.accepted)
    && (forall w | w in s.accepted :: w < |s.writers|)
    && (forall w | 0 <= w < |s.writers| :: w in s.accepted <==> Accepted(s.writers[w]))
    && (s.drainer == Exited ==> s.channel == [] && s.channelClosed)
  }

  ghost predicate LockInv(s: State) { WriterSide(s) && CloserSide(s) }

  ghost predicate WriterSide(s: State) {
    && !s.panicked
    && s.capacity >= 1 && |s.channel| <= s.capacity
    && s.lock.readers == ReadCount(s.writers)
    && (s.lock.writerHolding ==> s.lock.readers == 0)
    && (forall w | 0 <= w < |s.writers| && s.writers[w] == Sending :: !s.closed)
    && (forall w | 0 <= w < |s.writers| && Refused(s.writers[w]) :: s.closed)
    && (s.channelClosed ==> s.closed)
  }

  ghost predicate CloserSide(s: State) {
    && (s.once != Running ==> forall c | 0 <= c < |s.closers| :: !InSection(s.closers[c]))
    && (forall c, d | 0 <= c < d < |s.closers| :: !InSection(s.closers[c]) || !InSection(s.closers[d]))
    && (forall c | 0 <= c < |s.closers| :: CloserInv(s, s.closers[c]))
    && (s.once == Unused ==> !s.closed && !s.channelClosed && !s.lock.writerWaiting && !s.lock.writerHolding)
    && (s.once == Running ==> exists c | 0 <= c < |s.closers| :: InSection(s.closers[c]))
    && (s.once == Finished ==>
      s.drainer == Exited && s.file == s.records && s.channelClosed && !s.lock.writerWaiting && !s.lock.writerHolding)
  }

  /** Nothing that a closer looks at has changed. */
  predicate SameForClosers(s: State, t: State) {
    && t.closers == s.closers && t.once == s.once && t.closed == s.closed && t.channelClosed == s.channelClosed
    && t.lock.writerWaiting == s.lock.writerWaiting && t.lock.writerHolding == s.lock.writerHolding
    && (s.once == Finished ==> t.drainer == s.drainer && t.file == s.file && t.records == s.records)
  }

  lemma ClosersKeep(s: State, t: State)
    requires CloserSide(s) && SameForClosers(s, t)
    ensures CloserSide(t)
  {
    forall c | 0 <= c < |t.closers| ensures CloserInv(t, t.closers[c]) { assert CloserInv(s, s.closers[c]); }
  }

  ghost predicate CloserInv(s: State, p: CloserPhase) {
    match p
    case Calling => true
    case Locking => s.lock.writerWaiting && !s.lock.writerHolding && !s.closed && !s.channelClosed
    case Locked => !s.lock.writerWaiting && s.lock.writerHolding && !s.closed && !s.channelClosed
    case Flagged => !s.lock.writerWaiting && s.lock.writerHolding && s.closed && !s.channelClosed
    case Releasing => !s.lock.writerWaiting && s.lock.writerHolding && s.closed && s.channelClosed
    case Draining => !s.lock.writerWaiting && !s.lock.writerHolding && s.closed && s.channelClosed
    case Closed => s.once == Finished
  }

  ghost predicate Inv(s: State) { DataInv(s) && LockInv(s) }

  lemma ReadCountUpdate(ws: seq<WriterPhase>, w: nat, p: WriterPhase)
    requires w < |ws|
    ensures ReadCount(ws[w := p]) == ReadCount(ws) - ReadWeight(ws[w]) + ReadWeight(p)
  {
    TotalUpdate(ReadWeight, ws, w, p);
  }

  lemma HolderCounted(ws: seq<WriterPhase>, w: nat)
    requires w < |ws| && HoldsRead(ws[w])
    ensures ReadCount(ws) > 0
  {
    TotalAtLeast(ReadWeight, ws, w, w);
  }

  lemma CountedHolder(ws: seq<WriterPhase>) returns (w: nat)
    requires ReadCount(ws) > 0
    ensures w < |ws| && HoldsRead(ws[w])
  {
    w := SomeWeight(ReadWeight, ws);
  }

  lemma WritePreserves(s: State, w: nat, ok: bool)
    requires Inv(s) && Enabled(s, Write(w, ok))
    ensures LockInv(WriteStep(s, w, ok))
  {
    WriteKeepsWriters(s, w, ok);
    ClosersKeep(s, WriteStep(s, w, ok));
  }

  lemma WriteKeepsWriters(s: State, w: nat, ok: bool)
    requires Inv(s) && Enabled(s, Write(w, ok))
    ensures WriterSide(WriteStep(s, w, ok))
  {
    ReadCountUpdate(s.writers, w, WriteStep(s, w, ok).writers[w]);
    if s.writers[w].Unlocking? { HolderCounted(s.writers, w); }
  }

  /** A write that goes through is accepted for the first time, behind everything accepted before. */
  lemma SendPreservesData(s: State, w: nat, ok: bool)
    requires Inv(s) && Enabled(s, Write(w, ok)) && s.writers[w] == Sending
    ensures DataInv(WriteStep(s, w, ok))
  {
    var t := WriteStep(s, w, ok);
    assert w !in s.accepted;
    assert t.accepted == s.records + InHand(s.drainer) + t.channel;
  }

  lemma OtherPreservesData(s: State, w: nat, ok: bool)
    requires Inv(s) && Enabled(s, Write(w, ok)) && s.writers[w] != Sending
    ensures DataInv(WriteStep(s, w, ok))
  {
    var t := WriteStep(s, w, ok);
    assert t.accepted == s.accepted && t.channel == s.channel && t.records == s.records && t.file == s.file;
    assert Accepted(t.writers[w]) == Accepted(s.writers[w]);
  }

  lemma WritePreservesData(s: State, w: nat, ok: bool)
    requires Inv(s) && Enabled(s, Write(w, ok))
    ensures DataInv(WriteStep(s, w, ok))
  {
    if s.writers[w] == Sending { SendPreservesData(s, w, ok); } else { OtherPreservesData(s, w, ok); }
  }

  lemma ClosePreserves(s: State, c: nat)
    requires Inv(s) && Enabled(s, Close(c))
    ensures Inv(CloseStep(s, c))
  {
    var t := CloseStep(s, c);
    assert CloserInv(s, s.closers[c]);
    forall w | 0 <= w < |s.writers| ensures s.closers[c] == Locked ==> s.writers[w] != Sending {
      if s.writers[w] == Sending { HolderCounted(s.writers, w); }
    }
    forall d | 0 <= d < |t.closers| ensures CloserInv(t, t.closers[d]) { assert CloserInv(s, s.closers[d]); }
    assert t.once == Running ==> InSection(t.closers[c]);
  }

  lemma DrainPreserves(s: State)
    requires Inv(s) && Enabled(s, Drain)
    ensures Inv(DrainStep(s))
  {
    DrainKeepsData(s);
    ClosersKeep(s, DrainStep(s));
  }

  lemma DrainKeepsData(s: State)
    requires DataInv(s) && Enabled(s, Drain)
    ensures DataInv(DrainStep(s))
  {
    if s.drainer == Receiving && s.channel != [] {
      assert s.channel == [s.channel[0]] + s.channel[1..];
    }
  }

  lemma StepPreserves(s: State, a: Action)
    requires Inv(s) && Enabled(s, a)
    ensures Inv(Apply(s, a))
  {
    match a
    case Write(w, ok) =>
      WritePreserves(s, w, ok);
      WritePreservesData(s, w, ok);
    case Close(c) => ClosePreserves(s, c);
    case Drain => DrainPreserves(s);
  }

  lemma {:induction false} RunInv(run: seq<State>, acts: seq<Action>, i: nat)
    requires IsRun(run, acts) && i < |run|
    ensures Inv(run[i])
  {
    if i > 0 {
      RunInv(run, acts, i - 1);
      assert StepAt(run, acts, i - 1);
      StepPreserves(run[i - 1], acts[i - 1]);
    } else if ReadCount(run[0].writers) > 0 {
      var w := CountedHolder(run[0].writers);
    }
  }

  // ---------------------------------------------------------------- results

  /** No send on a closed channel, no double close. */
  lemma NeverPanics(run: seq<State>, acts: seq<Action>, i: nat)
    requires IsRun(run, acts) && i < |run|
    ensures !run[i].panicked
  {
    RunInv(run, acts, i);
  }

  /** When any call of Close has returned, the records in memory and on file are the accepted
      writes, in the order they went through the channel, each once; a write is among them
      exactly when its caller is told (or about to be told) that it succeeded. */
  lemma CloseIsComplete(run: seq<State>, acts: seq<Action>, i: nat, c: nat)
    requires IsRun(run, acts) && i < |run| && HasClosed(run[i], c)
    ensures run[i].records == run[i].file == run[i].accepted
    ensures Distinct(run[i].records)
    ensures forall w | 0 <= w < |run[i].writers| :: w in run[i].records <==> Accepted(run[i].writers[w])
    ensures forall w | 0 <= w < |run[i].writers| :: run[i].writers[w] != Sending
  {
    RunInv(run, acts, i);
    var s := run[i];
    assert CloserInv(s, s.closers[c]);
    assert s.records + [] + [] == s.records;
  }

  /** A write is refused only after some call of Close has taken effect, and is not serialisable only if its own step
      said so.  So until somebody calls Close every write that returned went through. */
  lemma RefusedOnlyWhenClosed(run: seq<State>, acts: seq<Action>, i: nat, w: nat)
    requires IsRun(run, acts) && i < |run| && w < |run[i].writers|
    ensures Refused(run[i].writers[w]) ==> run[i].closed && run[i].once != Unused
    ensures run[i].once == Unused && run[i].writers[w].Returned? ==> run[i].writers[w].ok && w in run[i].accepted
    ensures run[i].writers[w] == Unserialisable ==> exists j | 0 <= j < i :: acts[j] == Write(w, false)
    ensures (exists c | 0 <= c < |run[i].closers| :: run[i].closers[c] != Calling) ==> run[i].once != Unused
  {
    RunInv(run, acts, i);
    if run[i].writers[w] == Unserialisable { var j := SaidUnserialisable(run, acts, i, w); }
    forall c | 0 <= c < |run[i].closers| ensures run[i].closers[c] != Calling ==> run[i].once != Unused {
      assert CloserInv(run[i], run[i].closers[c]);
    }
  }

  lemma {:induction false} SaidUnserialisable(run: seq<State>, acts: seq<Action>, i: nat, w: nat) returns (j: nat)
    requires IsRun(run, acts) && i < |run| && w < |run[i].writers| && run[i].writers[w] == Unserialisable
    ensures j < i && acts[j] == Write(w, false)
  {
    assert StepAt(run, acts, i - 1);
    if run[i - 1].writers[w] == Unserialisable { j := SaidUnserialisable(run, acts, i - 1, w); } else { j := i - 1; }
  }

  lemma StepExtends(s: State, a: Action)
    requires Inv(s) && Enabled(s, a)
    ensures s.records <= Apply(s, a).records && s.accepted <= Apply(s, a).accepted
    ensures s.once == Finished ==> Apply(s, a).records == s.records && Apply(s, a).once == Finished
  {
  }

  /** What was recorded and accepted stays, and once shutdown has finished nothing is added. */
  ghost predicate Continues(s: State, t: State) {
    && s.records <= t.records && s.accepted <= t.accepted
    && (s.once == Finished ==> t.records == s.records && t.once == Finished)
  }

  lemma NextContinues(run: seq<State>, acts: seq<Action>, i: nat)
    requires IsRun(run, acts) && i < |acts|
    ensures Continues(run[i], run[i + 1])
  {
    RunInv(run, acts, i);
    assert StepAt(run, acts, i);
    StepExtends(run[i], acts[i]);
  }

  lemma ContinuesOn(s: State, t: State, u: State)
    requires Continues(s, t) && Continues(t, u)
    ensures Continues(s, u)
  {
  }

  /** A snapshot of the records taken at any moment is a prefix of every later one. */
  lemma {:induction false} SnapshotsAreCumulative(run: seq<State>, acts: seq<Action>, i: nat, j: nat)
    requires IsRun(run, acts) && i <= j < |run|
    ensures Continues(run[i], run[j])
    decreases j - i
  {
    if i < j {
      SnapshotsAreCumulative(run, acts, i, j - 1);
      NextContinues(run, acts, j - 1);
      ContinuesOn(run[i], run[j - 1], run[j]);
    }
  }

  /** Once some Close returned, nothing is recorded any more. */
  lemma NothingAfterClose(run: seq<State>, acts: seq<Action>, i: nat, j: nat, c: nat)
    requires IsRun(run, acts) && i <= j < |run| && HasClosed(run[i], c)
    ensures run[j].records == run[i].records == run[j].accepted
  {
    RunInv(run, acts, i);
    RunInv(run, acts, j);
    assert CloserInv(run[i], run[i].closers[c]);
    SnapshotsAreCumulative(run, acts, i, j);
    assert run[j].records + [] + [] == run[j].records;
  }

  predicate Settled(s: State) {
    && (forall w | 0 <= w < |s.writers| :: s.writers[w].Returned? || s.writers[w].Unserialisable?)
    && (forall c | 0 <= c < |s.closers| :: s.closers[c] == Closed)
  }

  /** Somebody can always move: as long as a writer or a closer has not returned, a step is
      enabled, also with the channel full and a closer waiting behind blocked writers. */
  lemma NoDeadlock(run: seq<State>, acts: seq<Action>, i: nat) returns (a: Action)
    requires IsRun(run, acts) && i < |run| && !Settled(run[i])
    ensures Enabled(run[i], a)
  {
    RunInv(run, acts, i);
    var s := run[i];
    if CanDrain(s) { return Drain; }
    // from here on the channel is empty
    if ReadCount(s.writers) > 0 {
      var w := CountedHolder(s.writers);
      return Write(w, true);
    }
    if s.once == Running {
      var c: nat :| c < |s.closers| && InSection(s.closers[c]);
      assert CloserInv(s, s.closers[c]);
      return Close(c);
    }
    if w: nat :| w < |s.writers| && !s.writers[w].Returned? && !s.writers[w].Unserialisable? {
      if HoldsRead(s.writers[w]) { HolderCounted(s.writers, w); }
      return Write(w, true);
    }
    var c: nat :| c < |s.closers| && s.closers[c] != Closed;
    return Close(c);
  }

  // Every step uses up some of a bounded amount of work, so a run cannot go on for ever either.

  function WriterWork(p: WriterPhase): nat {
    match p
    case Preparing => 8
    case Reading => 7
    case Sending => 6
    case Unlocking(_) => 1
    case _ => 0
  }

  function CloserWork(p: CloserPhase): nat {
    match p
    case Calling => 7
    case Locking => 6
    case Locked => 5
    case Flagged => 4
    case Releasing => 3
    case Draining => 2
    case Closed => 0
  }

  function DrainWork(d: DrainPhase): nat {
    match d
    case Receiving => 1
    case Appending(_) => 3
    case Filing(_) => 2
    case Exited => 0
  }

  function Work(s: State): nat {
    Total(WriterWork, s.writers) + Total(CloserWork, s.closers) + 3 * |s.channel| + DrainWork(s.drainer)
  }

  lemma WriterMove(s: State, t: State, w: nat)
    requires w < |s.writers| == |t.writers| && t.writers == s.writers[w := t.writers[w]] && t.closers == s.closers
    ensures Work(t) - Work(s) == WriterWork(t.writers[w]) - WriterWork(s.writers[w])
              + 3 * |t.channel| - 3 * |s.channel| + DrainWork(t.drainer) - DrainWork(s.drainer)
  {
    TotalUpdate(WriterWork, s.writers, w, t.writers[w]);
  }

  lemma CloserMove(s: State, t: State, c: nat)
    requires c < |s.closers| == |t.closers| && t.closers == s.closers[c := t.closers[c]] && t.writers == s.writers
    requires t.channel == s.channel && t.drainer == s.drainer
    ensures Work(t) - Work(s) == CloserWork(t.closers[c]) - CloserWork(s.closers[c])
  {
    TotalUpdate(CloserWork, s.closers, c, t.closers[c]);
  }

  lemma WriteUsesWork(s: State, w: nat, ok: bool)
    requires Inv(s) && Enabled(s, Write(w, ok))
    ensures Work(WriteStep(s, w, ok)) < Work(s)
  {
    WriterMove(s, WriteStep(s, w, ok), w);
  }

  lemma CloseUsesWork(s: State, c: nat)
    requires Inv(s) && Enabled(s, Close(c))
    ensures Work(CloseStep(s, c)) < Work(s)
  {
    assert CloserInv(s, s.closers[c]);
    CloserMove(s, CloseStep(s, c), c);
  }

  lemma StepUsesWork(s: State, a: Action)
    requires Inv(s) && Enabled(s, a)
    ensures Work(Apply(s, a)) < Work(s)
  {
    match a
    case Write(w, ok) => WriteUsesWork(s, w, ok);
    case Close(c) => CloseUsesWork(s, c);
    case Drain =>
  }

  /** No run is longer than the work it starts with: every way of scheduling writers, closers and
      the drainer ends, and by `NoDeadlock` it can only end with everybody returned. */
  lemma {:induction false} RunsAreBounded(run: seq<State>, acts: seq<Action>, i: nat)
    requires IsRun(run, acts) && i < |run|
    ensures i + Work(run[i]) <= Work(run[0])
  {
    if i > 0 {
      RunsAreBounded(run, acts, i - 1);
      RunInv(run, acts, i - 1);
      assert StepAt(run, acts, i - 1);
      StepUsesWork(run[i - 1], acts[i - 1]);
    }
  }
}

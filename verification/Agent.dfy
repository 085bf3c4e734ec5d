/** One trial's prompt: submitted through a durable checkpoint that survives any number of process deaths.

    The process moves between the points where it can fail: each checkpoint write, each request and each
    poll. It may die at any of them; a checkpoint write leaves either the old file or the new one. The server
    may accept a sent prompt at any later time, or never. */
module Agent {
  import opened Common

  datatype Status = Prepared | Uncertain | Active | Completed | Failed | Cancelled

  predicate Final(s: Status)
  {
    s.Completed? || s.Failed? || s.Cancelled?
  }

  function Rank(s: Status): nat
  {
    match s
    case Prepared => 0
    case Uncertain => 1
    case Active => 2
    case _ => 3
  }

  // ----- one slice of the event stream -----

  /** A stream item: live text, a committed event, or one that belongs to something else. */
  datatype Item = Live | Committed(sequence: int, becomes: Status) | Foreign

  datatype Slice = Slice(sequence: int, status: Status)

  const SLICE_ITEMS := 256

  function ApplyItem(r: Slice, item: Item): Option<Slice>
  {
    match item
    case Live => Some(r)
    case Foreign => None
    case Committed(sequence, becomes) =>
      if sequence <= r.sequence then None else Some(Slice(sequence, if Final(becomes) then becomes else Active))
  }

  function ReadItems(r: Slice, items: seq<Item>, count: nat): Option<Slice>
    decreases |items|
  {
    if items == [] then Some(r)
    else
      match ApplyItem(r, items[0])
      case None => None
      case Some(r') => if !r'.status.Active? || count + 1 >= SLICE_ITEMS then Some(r') else ReadItems(r', items[1..], count + 1)
  }

  /** Reads items until a final event, the bound, or the end of the slice; `items` is what arrived in time. */
  method ReadRunEvents(after: int, items: seq<Item>) returns (r: Option<Slice>)
    ensures r == ReadItems(Slice(after, Active), items, 0)
    ensures r.Some? ==> r.value.sequence >= after && (r.value.status.Active? || Final(r.value.status))
  {
    var result := Slice(after, Active);
    var count := 0;
    for i := 0 to |items|
      invariant count == i && result.sequence >= after && result.status.Active?
      invariant ReadItems(result, items[i..], count) == ReadItems(Slice(after, Active), items, 0)
    {
      assert items[i..][0] == items[i] && items[i..][1..] == items[i + 1..];
      var next := ApplyItem(result, items[i]);
      if next.None? { return None; }
      result := next.value;
      count := count + 1;
      if !result.status.Active? || count >= SLICE_ITEMS { return Some(result); }
    }
    return Some(result);
  }

  /** A slice never goes back, and every committed item it took was newer than the one before. */
  lemma {:induction false} SliceAdvances(r: Slice, items: seq<Item>, count: nat)
    requires r.status.Active? && ReadItems(r, items, count).Some?
    ensures var r' := ReadItems(r, items, count).value;
            && r'.sequence >= r.sequence && (r'.status.Active? || Final(r'.status))
            && (r'.sequence == r.sequence ==> r' == r)
    decreases |items|
  {
    if items != [] {
      var r1 := ApplyItem(r, items[0]).value;
      if r1.status.Active? && count + 1 < SLICE_ITEMS {
        SliceAdvances(r1, items[1..], count + 1);
      }
    }
  }

  // ----- the process, its checkpoint and the server -----

  datatype Checkpoint = Checkpoint(status: Status, run: Option<int>, sequence: int)

  datatype At =
    | Loading
    | WritingFirst
    | Deciding
    | AskingOperation
    | Marking
    | WritingUncertain
    | Sending
    | Awaiting
    | WritingRun
    | Binding
    | Polling
    | WritingSlice
    | Recovering
    | Cancelling
    | WritingLast

  /** `sent` is set while this process has a submission of its own to wait for. */
  datatype Process = Down | Up(at: At, memory: Checkpoint, sent: bool)

  /** `posts` counts the message requests ever issued; `run` is the run the server made of the operation. */
  datatype World = World(disk: Option<Checkpoint>, process: Process, posts: nat, run: Option<int>)

  /** What the running process does next, or what happens to it. */
  datatype Move =
    | Load
    | Write(ok: bool)
    | Decide
    | Mark
    | Send
    | Receipt
    | Bound
    | Poll(items: seq<Item>)
    | Finish
    | Raise
    | LateReceipt
    | NoReceipt
    | Confirmed(status: Status)
    | Unconfirmed
    | Crash

  datatype Step = Launch | Act(move: Move) | ServerAccepts(id: int)

  predicate Writing(at: At)
  {
    at.WritingFirst? || at.WritingUncertain? || at.WritingRun? || at.WritingSlice? || at.WritingLast?
  }

  /** Inside the guarded part, where any failure goes to the recovery. */
  predicate Guarded(at: At)
  {
    at.Deciding? || at.AskingOperation? || at.Marking? || at.Awaiting? || at.Binding? || at.Polling?
  }

  predicate CanMove(p: Process, run: Option<int>, move: Move)
    requires p.Up?
  {
    match move
    case Load => p.at.Loading?
    case Write(_) => Writing(p.at)
    case Decide => p.at.Deciding?
    case Mark => p.at.Marking?
    case Send => p.at.Sending?
    case Receipt => (p.at.AskingOperation? || p.at.Awaiting?) && run.Some?
    case Bound => p.at.Binding?
    case Poll(items) => p.at.Polling? && !Final(p.memory.status) && ReadItems(Slice(p.memory.sequence, Active), items, 0).Some?
    case Finish => p.at.Polling? && p.memory.status.Completed?
    case Raise => Guarded(p.at)
    case LateReceipt => p.at.Recovering? && p.sent && p.memory.run.None? && run.Some?
    case NoReceipt => p.at.Recovering?
    case Confirmed(status) => p.at.Cancelling? && p.memory.run.Some? && !Final(p.memory.status) && Final(status)
    case Unconfirmed => p.at.Cancelling?
    case Crash => true
  }

  /** Where a finished write goes on; a failed first or last write ends the process, others recover. */
  function AfterWrite(p: Process): Process
    requires p.Up? && Writing(p.at)
  {
    match p.at
    case WritingFirst => p.(at := Deciding)
    case WritingUncertain => p.(at := Sending)
    case WritingRun => p.(at := Binding)
    case WritingSlice => p.(at := Polling)
    case _ => Down
  }

  function AfterFailedWrite(p: Process): Process
    requires p.Up?
  {
    if p.at.WritingFirst? || p.at.WritingLast? then Down else p.(at := Recovering)
  }

  function Moved(p: Process, disk: Option<Checkpoint>, run: Option<int>, move: Move): Process
    requires p.Up? && CanMove(p, run, move)
  {
    var m := p.memory;
    match move
    case Load =>
      (match disk
       case Some(saved) => Up(Deciding, saved, false)
       case None => Up(WritingFirst, Checkpoint(Prepared, None, 0), false))
    case Write(ok) => if ok then AfterWrite(p) else AfterFailedWrite(p)
    case Decide => p.(at := if m.status.Uncertain? then AskingOperation else if m.run.None? then Marking else Binding)
    case Mark => Up(WritingUncertain, m.(status := Uncertain), p.sent)
    case Send => Up(Awaiting, m, true)
    case Receipt => Up(WritingRun, Checkpoint(Active, run, m.sequence), p.sent)
    case Bound => p.(at := Polling)
    case Poll(items) =>
      var r := ReadItems(Slice(m.sequence, Active), items, 0).value;
      Up(WritingSlice, Checkpoint(r.status, m.run, r.sequence), p.sent)
    case Finish => Down
    case Raise => p.(at := Recovering)
    case LateReceipt => Up(Cancelling, Checkpoint(Active, run, m.sequence), p.sent)
    case NoReceipt => p.(at := Cancelling)
    case Confirmed(status) => Up(WritingLast, m.(status := status), p.sent)
    case Unconfirmed => p.(at := WritingLast)
    case Crash => Down
  }

  predicate Can(w: World, step: Step)
  {
    match step
    case Launch => w.process.Down?
    case Act(move) => w.process.Up? && CanMove(w.process, w.run, move)
    case ServerAccepts(_) => w.posts > 0
  }

  function Next(w: World, step: Step): World
    requires Can(w, step)
  {
    match step
    case Launch => w.(process := Up(Loading, Checkpoint(Prepared, None, 0), false))
    case Act(move) =>
      World(if move == Write(true) then Some(w.process.memory) else w.disk,
            Moved(w.process, w.disk, w.run, move), if move.Send? then w.posts + 1 else w.posts, w.run)
    case ServerAccepts(id) => if w.run.None? then w.(run := Some(id)) else w
  }

  ghost predicate Runs(w: World, steps: seq<Step>)
    decreases |steps|
  {
    steps != [] ==> Can(w, steps[0]) && Runs(Next(w, steps[0]), steps[1..])
  }

  ghost function After(w: World, steps: seq<Step>): World
    requires Runs(w, steps)
    decreases |steps|
  {
    if steps == [] then w else After(Next(w, steps[0]), steps[1..])
  }

  const Fresh := World(None, Down, 0, None)

  // ----- what every step keeps -----

  /** `b` is a later checkpoint of the same trial than `a`: no rank is lost, a final status and a run stay. */
  ghost predicate Advances(a: Checkpoint, b: Checkpoint)
  {
    && Rank(a.status) <= Rank(b.status) && (Final(a.status) ==> b.status == a.status)
    && a.sequence <= b.sequence && (a.run.Some? ==> b.run == a.run)
  }

  ghost predicate DiskAdvances(a: Option<Checkpoint>, b: Option<Checkpoint>)
  {
    a.Some? ==> b.Some? && Advances(a.value, b.value)
  }

  ghost predicate CheckpointOk(c: Checkpoint, run: Option<int>)
  {
    && (c.run.None? <==> c.status.Prepared? || c.status.Uncertain?)
    && (c.run.Some? ==> c.run == run)
  }

  /** The prompt may be sent only from here, and only if it never was. */
  predicate BeforeSend(p: Process)
  {
    p.Up? && (p.memory.status.Prepared? || p.at.WritingUncertain? || p.at.Sending?) && !p.at.Loading?
  }

  ghost predicate AtOk(p: Process)
    requires p.Up?
  {
    && (p.at.Marking? || p.at.WritingFirst? ==> p.memory.status.Prepared?)
    && (p.at.AskingOperation? || p.at.WritingUncertain? || p.at.Sending? || p.at.Awaiting? ==> p.memory.status.Uncertain?)
    && (p.at.Binding? || p.at.Polling? || p.at.WritingRun? || p.at.WritingSlice? ==> p.memory.run.Some?)
  }

  ghost predicate Inv(w: World)
  {
    && (w.run.Some? ==> w.posts > 0)
    && (w.disk.Some? ==> CheckpointOk(w.disk.value, w.run))
    && (w.posts > 0 ==> w.posts == 1 && w.disk.Some? && !w.disk.value.status.Prepared?)
    && (w.process.Up? && !w.process.at.Loading? ==>
          && CheckpointOk(w.process.memory, w.run) && DiskAdvances(w.disk, Some(w.process.memory)) && AtOk(w.process)
          && (BeforeSend(w.process) ==> w.posts == 0)
          && (w.process.at.Sending? ==> w.disk == Some(w.process.memory)))
  }

  lemma WriteKept(w: World, ok: bool)
    requires Inv(w) && Can(w, Act(Write(ok)))
    ensures Inv(Next(w, Act(Write(ok)))) && DiskAdvances(w.disk, Next(w, Act(Write(ok))).disk)
  {
  }

  lemma MoveKept(w: World, move: Move)
    requires Inv(w) && Can(w, Act(move)) && !move.Write?
    ensures Inv(Next(w, Act(move)))
  {
    if move.Poll? {
      SliceAdvances(Slice(w.process.memory.sequence, Active), move.items, 0);
    }
  }

  lemma InvKept(w: World, step: Step)
    requires Inv(w) && Can(w, step)
    ensures Inv(Next(w, step)) && DiskAdvances(w.disk, Next(w, step).disk)
  {
    if step.Act? {
      if step.move.Write? { WriteKept(w, step.move.ok); } else { MoveKept(w, step.move); }
    }
  }

  lemma {:induction false} RunKeeps(w: World, steps: seq<Step>)
    requires Inv(w) && Runs(w, steps)
    ensures Inv(After(w, steps)) && DiskAdvances(w.disk, After(w, steps).disk)
    decreases |steps|
  {
    if steps != [] {
      InvKept(w, steps[0]);
      RunKeeps(Next(w, steps[0]), steps[1..]);
    }
  }

  /** Across any number of crashes and resumes, at any point of a run and any later one: the message is posted
      at most once; once it is, the checkpoint is past `Prepared` for good; and the checkpoint only advances,
      so its sequence never decreases, its run never changes, a final status is never left, and the run it
      names is the one the server made. */
  lemma PromptOnce(first: seq<Step>, rest: seq<Step>)
    requires Runs(Fresh, first) && Runs(After(Fresh, first), rest)
    ensures var w, w' := After(Fresh, first), After(After(Fresh, first), rest);
            && w'.posts <= 1 && DiskAdvances(w.disk, w'.disk)
            && (w.posts > 0 ==> w'.disk.Some? && !w'.disk.value.status.Prepared?)
            && (w'.disk.Some? && w'.disk.value.run.Some? ==> w'.disk.value.run == w'.run)
  {
    RunKeeps(Fresh, first);
    RunKeeps(After(Fresh, first), rest);
  }

  // ----- losing the last rename -----

  /** What is on disk, what is in memory and what the process is about to do are all past the submission. */
  ghost predicate PastSubmission(w: World)
  {
    && w.disk.Some? && !w.disk.value.status.Prepared?
    && (w.disk.value.run.None? <==> w.disk.value.status.Uncertain?)
    && (w.process.Up? && !w.process.at.Loading? ==>
          && !w.process.memory.status.Prepared? && (w.process.memory.run.None? <==> w.process.memory.status.Uncertain?)
          && !w.process.at.Marking? && !w.process.at.WritingUncertain? && !w.process.at.Sending? && !w.process.at.WritingFirst?
          && (w.process.at.Binding? || w.process.at.Polling? || w.process.at.WritingRun? || w.process.at.WritingSlice? ==>
                w.process.memory.run.Some?))
  }

  lemma PastStep(w: World, step: Step)
    requires PastSubmission(w) && Can(w, step)
    ensures PastSubmission(Next(w, step)) && Next(w, step).posts == w.posts
  {
    if step.Act? && step.move.Poll? {
      SliceAdvances(Slice(w.process.memory.sequence, Active), step.move.items, 0);
    }
  }

  lemma {:induction false} PastForever(w: World, steps: seq<Step>)
    requires PastSubmission(w) && Runs(w, steps)
    ensures After(w, steps).posts == w.posts
    decreases |steps|
  {
    if steps != [] {
      PastStep(w, steps[0]);
      PastForever(Next(w, steps[0]), steps[1..]);
    }
  }

  ghost predicate CanPost(w: World)
  {
    exists steps :: PostsBy(w, steps)
  }

  ghost predicate PostsBy(w: World, steps: seq<Step>)
  {
    Runs(w, steps) && After(w, steps).posts > w.posts
  }

  lemma ThenPosts(w: World, step: Step)
    requires Can(w, step)
    requires Next(w, step).posts > w.posts || (Next(w, step).posts == w.posts && CanPost(Next(w, step)))
    ensures CanPost(w)
  {
    var w' := Next(w, step);
    var rest: seq<Step> := [];
    if w'.posts == w.posts { rest :| PostsBy(w', rest); }
    var steps := [step] + rest;
    assert steps[1..] == rest;
    assert PostsBy(w, steps);
  }

  lemma PreparedPosts(w: World)
    requires w.process.Up? && w.process.at.Deciding? && w.process.memory.status.Prepared? && w.process.memory.run.None?
    ensures CanPost(w)
  {
    var w1 := Next(w, Act(Decide));
    var w2 := Next(w1, Act(Mark));
    var w3 := Next(w2, Act(Write(true)));
    ThenPosts(w3, Act(Send));
    ThenPosts(w2, Act(Write(true)));
    ThenPosts(w1, Act(Mark));
    ThenPosts(w, Act(Decide));
  }

  /** The directory is not synchronised after the rename, so a power loss may bring an earlier checkpoint back,
      or none. Another prompt can then be posted exactly when that checkpoint is not past `Prepared`. */
  lemma PowerLossExact(w: World, earlier: Option<Checkpoint>)
    requires earlier.Some? ==> (earlier.value.run.None? <==> earlier.value.status.Prepared? || earlier.value.status.Uncertain?)
    ensures CanPost(w.(disk := earlier, process := Down)) <==> earlier.None? || earlier.value.status.Prepared?
  {
    var lost := w.(disk := earlier, process := Down);
    var w1 := Next(lost, Launch);
    var w2 := Next(w1, Act(Load));
    if earlier.None? {
      PreparedPosts(Next(w2, Act(Write(true))));
      ThenPosts(w2, Act(Write(true)));
      ThenPosts(w1, Act(Load));
      ThenPosts(lost, Launch);
    } else if earlier.value.status.Prepared? {
      PreparedPosts(w2);
      ThenPosts(w1, Act(Load));
      ThenPosts(lost, Launch);
    } else {
      forall steps | Runs(lost, steps) ensures After(lost, steps).posts == lost.posts {
        PastForever(lost, steps);
      }
    }
  }

  lemma Extend(w: World, steps: seq<Step>, step: Step)
    requires Runs(w, steps) && Can(After(w, steps), step)
    ensures Runs(w, steps + [step]) && After(w, steps + [step]) == Next(After(w, steps), step)
    decreases |steps|
  {
    if steps == [] {
      assert ([] + [step])[1..] == [];
    } else {
      assert (steps + [step])[1..] == steps[1..] + [step];
      Extend(Next(w, steps[0]), steps[1..], step);
    }
  }

  ghost predicate Reachable(w: World)
  {
    exists steps :: Runs(Fresh, steps) && After(Fresh, steps) == w
  }

  lemma Onward(w: World, step: Step)
    requires Reachable(w) && Can(w, step)
    ensures Reachable(Next(w, step))
  {
    var steps :| Runs(Fresh, steps) && After(Fresh, steps) == w;
    Extend(Fresh, steps, step);
  }

  /** The bound is met: a process that dies right after sending can be resumed, and the trial completes on the
      run of that one prompt. */
  lemma ResumeCompletes(id: int) returns (w: World)
    ensures Reachable(w) && w.posts == 1 && w.process.Down? && w.disk == Some(Checkpoint(Completed, Some(id), 1))
  {
    w := Resumed(id);
    var poll := Act(Poll([Committed(1, Completed)]));
    Onward(w, poll); w := Next(w, poll);
    Onward(w, Act(Write(true))); w := Next(w, Act(Write(true)));
    Onward(w, Act(Finish)); w := Next(w, Act(Finish));
  }

  lemma Resumed(id: int) returns (w: World)
    ensures Reachable(w) && w.posts == 1 && w.process == Up(Polling, Checkpoint(Active, Some(id), 0), false)
  {
    w := SentThenDied();
    Onward(w, ServerAccepts(id)); w := Next(w, ServerAccepts(id));
    Onward(w, Launch); w := Next(w, Launch);
    Onward(w, Act(Load)); w := Next(w, Act(Load));
    Onward(w, Act(Decide)); w := Next(w, Act(Decide));
    Onward(w, Act(Receipt)); w := Next(w, Act(Receipt));
    Onward(w, Act(Write(true))); w := Next(w, Act(Write(true)));
    Onward(w, Act(Bound)); w := Next(w, Act(Bound));
  }

  /** The exact condition is met: the checkpoint before the uncertain one, brought back after the prompt was
      sent, lets a second one be posted. */
  lemma SecondPrompt() returns (w: World)
    ensures Reachable(w) && w.posts == 1 && CanPost(w.(disk := Some(Checkpoint(Prepared, None, 0)), process := Down))
  {
    w := SentThenDied();
    PowerLossExact(w, Some(Checkpoint(Prepared, None, 0)));
  }

  lemma SentThenDied() returns (w: World)
    ensures Reachable(w) && w == World(Some(Checkpoint(Uncertain, None, 0)), Down, 1, None)
  {
    w := Fresh;
    var none: seq<Step> := [];
    assert Runs(Fresh, none) && After(Fresh, none) == w;
    Onward(w, Launch); w := Next(w, Launch);
    Onward(w, Act(Load)); w := Next(w, Act(Load));
    Onward(w, Act(Write(true))); w := Next(w, Act(Write(true)));
    Onward(w, Act(Decide)); w := Next(w, Act(Decide));
    Onward(w, Act(Mark)); w := Next(w, Act(Mark));
    Onward(w, Act(Write(true))); w := Next(w, Act(Write(true)));
    Onward(w, Act(Send)); w := Next(w, Act(Send));
    Onward(w, Act(Crash)); w := Next(w, Act(Crash));
  }

  // ----- the agent's own code -----

  /** What happens at one point where the process can fail: the server may have accepted a sent prompt by
      then, and the process goes on, sees an error, or dies. */
  datatype Fate = Fine | Fails | Dies

  datatype Event = Event(accepts: Option<int>, fate: Fate)

  /** The agent as it is written, one method per stage. It keeps the steps it has taken, so that `Valid` says
      that whatever it did so far is a run of the machine above. */
  class WorkspaceAgent {
    var disk: Option<Checkpoint>
    var memory: Checkpoint
    var sent: bool
    var alive: bool
    var posts: nat
    var run: Option<int>
    ghost var at: At
    ghost var steps: seq<Step>

    ghost function View(): World
      reads this
    {
      World(disk, if alive then Up(at, memory, sent) else Down, posts, run)
    }

    ghost predicate Valid()
      reads this
    {
      Runs(Fresh, steps) && After(Fresh, steps) == View()
    }

    constructor ()
      ensures Valid() && !alive && View() == Fresh
    {
      disk, memory, sent, alive, posts, run := None, Checkpoint(Prepared, None, 0), false, false, 0, None;
      at, steps := Loading, [];
    }

    /** Records a step that led from `before` to the present state. */
    ghost method Did(before: World, step: Step)
      requires Runs(Fresh, steps) && After(Fresh, steps) == before
      requires Can(before, step) && Next(before, step) == View()
      modifies this`steps
      ensures Valid() && steps == old(steps) + [step]
    {
      Extend(Fresh, steps, step);
      steps := steps + [step];
    }

    /** The server's side of a point, and the death of the process. */
    method Meet(e: Event)
      requires Valid() && alive
      modifies this`run, this`alive, this`steps
      ensures Valid() && old(steps) <= steps
      ensures alive <==> !e.fate.Dies?
      ensures run == if old(run).None? && e.accepts.Some? && posts > 0 then e.accepts else old(run)
    {
      if run.None? && e.accepts.Some? && posts > 0 {
        ghost var before := View();
        run := e.accepts;
        Did(before, ServerAccepts(e.accepts.value));
      }
      if e.fate.Dies? {
        ghost var before := View();
        alive := false;
        Did(before, Act(Crash));
      }
    }

    /** Writes the checkpoint. The first write's failure and the last write's outcome end the process. */
    method WriteState(e: Event, first: bool, last: bool) returns (ok: bool)
      requires Valid() && alive && Writing(at) && (first <==> at.WritingFirst?) && (last <==> at.WritingLast?)
      modifies this`disk, this`run, this`alive, this`at, this`steps
      ensures Valid() && old(steps) <= steps && (ok <==> e.fate.Fine?)
      ensures disk == if ok then Some(memory) else old(disk)
      ensures alive <==> !e.fate.Dies? && !last && (ok || !first)
      ensures alive && ok ==> at == AfterWrite(Up(old(at), memory, sent)).at
      ensures alive && !ok ==> at == Recovering
    {
      Meet(e);
      if !alive { return false; }
      ghost var before := View();
      ok := e.fate.Fine?;
      if ok { disk := Some(memory); }
      alive := !last && (ok || !first);
      if alive { at := if ok then AfterWrite(before.process).at else Recovering; }
      Did(before, Act(Write(ok)));
    }

    method Raise()
      requires Valid() && alive && Guarded(at)
      modifies this`at, this`steps
      ensures Valid() && at == Recovering && old(steps) <= steps
    {
      ghost var before := View();
      at := Recovering;
      Did(before, Act(Move.Raise));
    }

    method Wake()
      requires Valid() && !alive
      modifies this
      ensures Valid() && alive && at == Loading && old(steps) <= steps && disk == old(disk)
    {
      ghost var before := View();
      alive, memory, sent, at := true, Checkpoint(Prepared, None, 0), false, Loading;
      Did(before, Launch);
    }

    /** Reads the checkpoint, or writes the first one. */
    method Load(script: nat -> Event)
      requires Valid() && !alive
      modifies this
      ensures Valid() && old(steps) <= steps && (alive ==> at == Deciding)
    {
      Wake();
      Meet(script(0));
      if !alive { return; }
      ghost var before := View();
      var found := disk.Some?;
      memory := if found then disk.value else Checkpoint(Prepared, None, 0);
      sent, at := false, if found then Deciding else WritingFirst;
      Did(before, Act(Move.Load));
      if !found { var ok := WriteState(script(1), true, false); }
    }

    /** Takes the run from a receipt, if there is one, and writes it down. */
    method TakeReceipt(asked: Event, written: Event) returns (raised: bool)
      requires Valid() && alive && (at == AskingOperation || at == Awaiting)
      modifies this
      ensures Valid() && old(steps) <= steps
      ensures alive ==> at == if raised then Recovering else Binding
    {
      Meet(asked);
      if !alive { return true; }
      if asked.fate.Fails? || run.None? {
        Raise();
        return true;
      }
      ghost var before := View();
      memory, at := Checkpoint(Active, run, memory.sequence), WritingRun;
      Did(before, Act(Move.Receipt));
      var ok := WriteState(written, false, false);
      raised := !ok;
    }

    method Decide() returns (ask: bool, submit: bool)
      requires Valid() && alive && at == Deciding
      modifies this`at, this`steps
      ensures Valid() && old(steps) <= steps
      ensures at == if ask then AskingOperation else if submit then Marking else Binding
      ensures !(ask && submit)
    {
      ghost var before := View();
      ask := memory.status.Uncertain?;
      submit := !ask && memory.run.None?;
      at := if ask then AskingOperation else if submit then Marking else Binding;
      Did(before, Act(Move.Decide));
    }

    /** Uncertainty reaches the disk, or nothing is sent. */
    method MarkUncertain(e: Event) returns (ok: bool)
      requires Valid() && alive && at == Marking
      modifies this
      ensures Valid() && old(steps) <= steps
      ensures alive ==> at == if ok then Sending else Recovering
      ensures ok ==> alive && disk == Some(memory) && memory.status.Uncertain?
    {
      ghost var before := View();
      memory, at := memory.(status := Uncertain), WritingUncertain;
      Did(before, Act(Move.Mark));
      ok := WriteState(e, false, false);
    }

    method Post()
      requires Valid() && alive && at == Sending
      modifies this`posts, this`sent, this`at, this`steps
      ensures Valid() && old(steps) <= steps && at == Awaiting && posts == old(posts) + 1
    {
      ghost var before := View();
      posts, sent, at := posts + 1, true, Awaiting;
      Did(before, Act(Move.Send));
    }

    /** Resolves an uncertain submission, or makes the one submission, with its uncertainty written first. */
    method Submit(script: nat -> Event) returns (raised: bool)
      requires Valid() && alive && at == Deciding
      modifies this
      ensures Valid() && old(steps) <= steps
      ensures alive ==> at == if raised then Recovering else Binding
    {
      var ask, submit := Decide();
      if ask {
        raised := TakeReceipt(script(2), script(3));
      } else if submit {
        if script(4).fate.Fails? {
          Raise();
          return true;
        }
        var ok := MarkUncertain(script(4));
        if !ok { return true; }
        Post();
        raised := TakeReceipt(script(5), script(6));
      } else {
        raised := false;
      }
    }

    method Bind(e: Event) returns (raised: bool)
      requires Valid() && alive && at == Binding
      modifies this
      ensures Valid() && old(steps) <= steps
      ensures alive ==> at == if raised then Recovering else Polling
    {
      Meet(e);
      if !alive { return true; }
      if e.fate.Fails? {
        Raise();
        return true;
      }
      ghost var before := View();
      at := Polling;
      Did(before, Act(Bound));
      raised := false;
    }

    /** One turn of the polling loop. */
    method PollOnce(items: seq<Item>, e: Event) returns (raised: bool)
      requires Valid() && alive && at == Polling && !Final(memory.status)
      modifies this
      ensures Valid() && old(steps) <= steps
      ensures alive ==> at == if raised then Recovering else Polling
      ensures !alive ==> raised
    {
      var slice := ReadRunEvents(memory.sequence, items);
      if slice.None? {
        Raise();
        return true;
      }
      ghost var before := View();
      memory, at := Checkpoint(slice.value.status, memory.run, slice.value.sequence), WritingSlice;
      Did(before, Act(Poll(items)));
      var ok := WriteState(e, false, false);
      raised := !ok;
    }

    method Complete()
      requires Valid() && alive && at == Polling && memory.status.Completed?
      modifies this`alive, this`steps
      ensures Valid() && old(steps) <= steps && !alive
    {
      ghost var before := View();
      alive := false;
      Did(before, Act(Finish));
    }

    /** Follows the run's events until it ends, an error is seen, or the process dies. */
    method Follow(script: nat -> Event, slices: nat -> seq<Item>, polls: nat) returns (raised: bool)
      requires Valid() && alive && at == Binding
      modifies this
      ensures Valid() && old(steps) <= steps
      ensures alive ==> raised && at == Recovering
    {
      raised := Bind(script(7));
      if !alive || raised { return; }
      var i := 0;
      while i < polls && !Final(memory.status)
        invariant Valid() && alive && at == Polling && old(steps) <= steps
      {
        raised := PollOnce(slices(i), script(8 + i));
        if raised { return; }
        i := i + 1;
      }
      if memory.status.Completed? {
        Complete();
      } else if Final(memory.status) {
        Raise();
        raised := true;
      } else {
        Meet(Event(None, Dies));
      }
    }

    /** Waits for its own submission. */
    method AwaitOwn(e: Event)
      requires Valid() && alive && at == Recovering
      modifies this
      ensures Valid() && old(steps) <= steps && (alive ==> at == Cancelling)
    {
      Meet(e);
      if !alive { return; }
      ghost var before := View();
      var late := sent && memory.run.None? && run.Some? && e.fate.Fine?;
      if late { memory := Checkpoint(Active, run, memory.sequence); }
      at := Cancelling;
      Did(before, Act(if late then LateReceipt else NoReceipt));
    }

    method CancelRun(confirmed: Option<Status>)
      requires Valid() && alive && at == Cancelling && (confirmed.Some? ==> Final(confirmed.value))
      modifies this
      ensures Valid() && old(steps) <= steps && alive && at == WritingLast
    {
      ghost var before := View();
      var known := memory.run.Some? && !Final(memory.status) && confirmed.Some?;
      if known { memory := memory.(status := confirmed.value); }
      at := WritingLast;
      Did(before, Act(if known then Confirmed(confirmed.value) else Unconfirmed));
    }

    /** Waits for its own submission, cancels the run, and writes the checkpoint a last time. */
    method Recover(script: nat -> Event, confirmed: Option<Status>)
      requires Valid() && alive && at == Recovering
      requires confirmed.Some? ==> Final(confirmed.value)
      modifies this
      ensures Valid() && old(steps) <= steps && !alive
    {
      AwaitOwn(script(0));
      if !alive { return; }
      CancelRun(confirmed);
      var ok := WriteState(script(1), false, true);
    }

    /** One life of the process, from launch to its end, is a run of the machine; so `PromptOnce` holds of any
        number of them. */
    method Live(script: nat -> Event, slices: nat -> seq<Item>, polls: nat, recovery: nat -> Event, confirmed: Option<Status>)
      requires Valid() && !alive && (confirmed.Some? ==> Final(confirmed.value))
      modifies this
      ensures Valid() && !alive && old(steps) <= steps
      ensures posts <= 1 && old(posts) <= posts && DiskAdvances(old(disk), disk)
      ensures posts > 0 ==> disk.Some? && !disk.value.status.Prepared?
    {
      ghost var w, first := View(), steps;
      Load(script);
      if alive {
        var raised := Submit(script);
        if alive && !raised { raised := Follow(script, slices, polls); }
        if alive { Recover(recovery, confirmed); }
      }
      Continues(first, steps);
    }
  }

  /** What a longer run of the machine shows about the shorter one it continues. */
  lemma Continues(first: seq<Step>, steps: seq<Step>)
    requires first <= steps && Runs(Fresh, steps)
    ensures Runs(Fresh, first)
    ensures var w, w' := After(Fresh, first), After(Fresh, steps);
            && w'.posts <= 1 && w.posts <= w'.posts && DiskAdvances(w.disk, w'.disk)
            && (w'.posts > 0 ==> w'.disk.Some? && !w'.disk.value.status.Prepared?)
  {
    var rest := steps[|first|..];
    assert steps == first + rest;
    Divide(Fresh, first, rest);
    RunKeeps(Fresh, first);
    RunKeeps(After(Fresh, first), rest);
    PostsGrow(After(Fresh, first), rest);
  }

  lemma {:induction false} Divide(w: World, a: seq<Step>, b: seq<Step>)
    requires Runs(w, a + b)
    ensures Runs(w, a) && Runs(After(w, a), b) && After(w, a + b) == After(After(w, a), b)
    decreases |a|
  {
    if a == [] {
      assert a + b == b;
    } else {
      assert (a + b)[1..] == a[1..] + b;
      Divide(Next(w, a[0]), a[1..], b);
    }
  }

  lemma {:induction false} PostsGrow(w: World, steps: seq<Step>)
    requires Runs(w, steps)
    ensures w.posts <= After(w, steps).posts
    decreases |steps|
  {
    if steps != [] { PostsGrow(Next(w, steps[0]), steps[1..]); }
  }
}

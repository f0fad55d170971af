/** What has been written: whole batches one behind the other, and nothing after a broken one. */
module MultiplexerWire {
  import opened Bytes
  import opened Results
  import opened Requests
  import opened Multiplexer

  predicate HoldsLock(p: Phase) {
    p.Holding? || p.Writing? || p.Aborting? || p.Committed?
  }

  /** The part of the lock holder's batch that is registered but not written yet. */
  function Unwritten(tasks: seq<Task>, writer: Option<nat>): bytes {
    if writer.Some? && writer.value < |tasks| && tasks[writer.value].phase.Writing?
    then tasks[writer.value].phase.rest else []
  }

  ghost predicate WireInv(tasks: seq<Task>, writer: Option<nat>, desynced: bool, wire: bytes, issued: seq<Request>) {
    && SerializableAll(issued)
    && (writer.Some? ==> writer.value < |tasks|)
    && (forall t :: 0 <= t < |tasks| ==> (HoldsLock(tasks[t].phase) <==> writer == Some(t)))
    && (forall t :: 0 <= t < |tasks| && tasks[t].phase.Aborting? ==> desynced)
    && (desynced && writer.Some? ==> tasks[writer.value].phase.Aborting?)
    && (!desynced ==> wire + Unwritten(tasks, writer) == PackEach(issued))
    && wire <= PackEach(issued)
  }

  /** A caller that neither takes nor gives up the lock leaves the wire as it is. */
  lemma WireAfterMove(tasks: seq<Task>, t: nat, task: Task, writer: Option<nat>, desynced: bool, wire: bytes,
                      issued: seq<Request>)
    requires WireInv(tasks, writer, desynced, wire, issued) && t < |tasks|
    requires !HoldsLock(tasks[t].phase) && !HoldsLock(task.phase)
    ensures WireInv(tasks[t := task], writer, desynced, wire, issued)
  {
    hide PackEach, Serializable;
  }

  lemma WireAfterEnter(tasks: seq<Task>, task: Task, writer: Option<nat>, desynced: bool, wire: bytes,
                       issued: seq<Request>)
    requires WireInv(tasks, writer, desynced, wire, issued) && !HoldsLock(task.phase)
    ensures WireInv(tasks + [task], writer, desynced, wire, issued)
  {
    hide PackEach, Serializable;
  }

  lemma WireAfterAcquire(tasks: seq<Task>, t: nat, wire: bytes, issued: seq<Request>)
    requires WireInv(tasks, None, false, wire, issued) && t < |tasks|
    ensures WireInv(tasks[t := tasks[t].(phase := Holding)], Some(t), false, wire, issued)
  {
    hide PackEach, Serializable;
  }

  /** Giving the lock back, with the batch written, broken off, or never registered. */
  lemma WireAfterRelease(tasks: seq<Task>, t: nat, phase: Phase, desynced: bool, wire: bytes, issued: seq<Request>)
    requires WireInv(tasks, Some(t), desynced, wire, issued) && t < |tasks|
    requires !tasks[t].phase.Writing? && !HoldsLock(phase)
    ensures WireInv(tasks[t := tasks[t].(phase := phase)], None, desynced, wire, issued)
  {
    hide PackEach, Serializable;
  }

  lemma WireAfterRegister(tasks: seq<Task>, t: nat, wire: bytes, issued: seq<Request>)
    requires WireInv(tasks, Some(t), false, wire, issued) && t < |tasks| && tasks[t].phase.Holding?
    requires SerializableAll(tasks[t].reqs)
    ensures WireInv(tasks[t := tasks[t].(phase := Writing(|issued|, PackEach(tasks[t].reqs)))],
                    Some(t), false, wire, issued + tasks[t].reqs)
  {
    hide PackEach, Serializable;
    PackEachAppend(issued, tasks[t].reqs);
    assert wire + [] == wire;
  }

  lemma WireAfterWrite(tasks: seq<Task>, t: nat, count: nat, wire: bytes, issued: seq<Request>)
    requires WireInv(tasks, Some(t), false, wire, issued) && t < |tasks| && tasks[t].phase.Writing?
    requires count <= |tasks[t].phase.rest|
    ensures var w := tasks[t].phase;
            WireInv(tasks[t := tasks[t].(phase := w.(rest := w.rest[count..]))],
                    Some(t), false, wire + w.rest[..count], issued)
  {
    hide PackEach, Serializable;
    var rest := tasks[t].phase.rest;
    assert wire + rest[..count] + rest[count..] == wire + rest;
  }

  lemma WireAfterAbort(tasks: seq<Task>, t: nat, cancelled: bool, wire: bytes, issued: seq<Request>)
    requires WireInv(tasks, Some(t), false, wire, issued) && t < |tasks| && tasks[t].phase.Writing?
    ensures WireInv(tasks[t := tasks[t].(phase := Aborting(tasks[t].phase.first, cancelled))],
                    Some(t), true, wire, issued)
  {
    hide PackEach, Serializable;
  }

  lemma WireAfterCommit(tasks: seq<Task>, t: nat, wire: bytes, issued: seq<Request>)
    requires WireInv(tasks, Some(t), false, wire, issued) && t < |tasks| && tasks[t].phase.Writing?
    requires tasks[t].phase.rest == []
    ensures WireInv(tasks[t := tasks[t].(phase := Committed(tasks[t].phase.first))], Some(t), false, wire, issued)
  {
    hide PackEach, Serializable;
  }
}

/** The stream batch handler of the file index manager (fileIndexManager.ts, `handleStreamEvents`):
    which change events make it re-propagate an entity's access restrictions to its indexed files. */
module FileIndexStream {
  import opened Js

  const EVENT_TYPE_UPDATE: string := "update"

  /** One JSON-patch operation of an update event's context. */
  datatype PatchOp = PatchOp(path: Option<string>, op: string)

  /** A stream event, reduced to what the handler reads: its type, the entity id and files from the
      platform extension, and the patch of the update context (absent when there is no context or patch). */
  datatype StreamEvent = StreamEvent(
    eventType: string,
    entityId: string,
    files: Option<seq<string>>,
    patch: Option<seq<PatchOp>>)

  /** `stixFiles?.length > 0` */
  predicate HasFiles(e: StreamEvent)
  {
    e.files.Some? && |e.files.value| > 0
  }

  /** `isDataRestrictionsUpdate` as written: `patch && patch.map(...)` yields an array, which is truthy
      whatever it holds, so the test holds for every present patch. */
  predicate RestrictionsUpdateAsWritten(e: StreamEvent)
  {
    e.patch.Some?
  }

  /** The decision of the loop body: reload the entity of an update event that has files and passes the test. */
  predicate TriggersReload(e: StreamEvent)
  {
    e.eventType == EVENT_TYPE_UPDATE && HasFiles(e) && RestrictionsUpdateAsWritten(e)
  }

  /** The entities a fully successful batch reloads, in event order. */
  function ReloadTargets(events: seq<StreamEvent>): seq<string>
  {
    if events == [] then []
    else (if TriggersReload(events[0]) then [events[0].entityId] else []) + ReloadTargets(events[1..])
  }

  lemma {:induction false} ReloadTargetsAppend(a: seq<StreamEvent>, b: seq<StreamEvent>)
    ensures ReloadTargets(a + b) == ReloadTargets(a) + ReloadTargets(b)
  {
    if a == [] {
      assert a + b == b;
    } else {
      assert (a + b)[0] == a[0] && (a + b)[1..] == a[1..] + b;
      ReloadTargetsAppend(a[1..], b);
    }
  }

  /** An entity is reloaded exactly when some update event for it carries files and a patch;
      no other event type is ever examined. */
  lemma {:induction false} ReloadTargetsMembership(events: seq<StreamEvent>, id: string)
    ensures id in ReloadTargets(events) <==>
              exists i :: 0 <= i < |events| && events[i].entityId == id && events[i].eventType == EVENT_TYPE_UPDATE
                          && HasFiles(events[i]) && events[i].patch.Some?
  {
    if events != [] {
      ReloadTargetsMembership(events[1..], id);
      if id in ReloadTargets(events[1..]) {
        var i :| 0 <= i < |events[1..]| && events[1..][i].entityId == id && events[1..][i].eventType == EVENT_TYPE_UPDATE
                 && HasFiles(events[1..][i]) && events[1..][i].patch.Some?;
        assert events[i + 1] == events[1..][i];
      }
      if exists i :: 0 <= i < |events| && events[i].entityId == id && events[i].eventType == EVENT_TYPE_UPDATE
                     && HasFiles(events[i]) && events[i].patch.Some? {
        var i :| 0 <= i < |events| && events[i].entityId == id && events[i].eventType == EVENT_TYPE_UPDATE
                 && HasFiles(events[i]) && events[i].patch.Some?;
        if i > 0 {
          assert events[1..][i - 1] == events[i];
        }
      }
    }
  }

  /** `handleStreamEvents`. Loading the entity or updating its files may throw; `failAt` names the
      reload attempt (counted from 0) that throws, if any. The exception ends the batch and is swallowed.
      Returns the entities whose restrictions were re-propagated and whether an error was caught. */
  method HandleStreamEvents(events: seq<StreamEvent>, failAt: Option<nat>) returns (reloaded: seq<string>, failed: bool)
    ensures var all := ReloadTargets(events);
            if failAt.Some? && failAt.value < |all|
            then reloaded == all[..failAt.value] && failed
            else reloaded == all && !failed
  {
    reloaded, failed := [], false;
    if |events| == 0 {
      return;
    }
    var index := 0;
    while index < |events|
      invariant 0 <= index <= |events|
      invariant reloaded == ReloadTargets(events[..index])
      invariant failAt.Some? ==> |reloaded| <= failAt.value
    {
      var event := events[index];
      ReloadTargetsAppend(events[..index], [event]);
      assert events[..index + 1] == events[..index] + [event];
      if TriggersReload(event) {
        if failAt == Some(|reloaded|) {
          // the exception leaves the loop; the catch block only logs it
          ReloadTargetsAppend(events[..index + 1], events[index + 1..]);
          assert events[..index + 1] + events[index + 1..] == events;
          assert ReloadTargets(events)[..failAt.value] == reloaded;
          failed := true;
          return;
        }
        reloaded := reloaded + [event.entityId];
      }
      index := index + 1;
    }
    assert events[..index] == events;
  }

  /** An empty batch, or one without update events, reloads nothing. */
  lemma NoUpdateNoReload(events: seq<StreamEvent>)
    requires forall i :: 0 <= i < |events| ==> events[i].eventType != EVENT_TYPE_UPDATE
    ensures ReloadTargets(events) == []
  {
    if ReloadTargets(events) != [] {
      ReloadTargetsMembership(events, ReloadTargets(events)[0]);
    }
  }

  /** `path.includes(sub)` */
  predicate Contains(path: string, sub: string)
    decreases |path|
  {
    |sub| <= |path| && (path[..|sub|] == sub || Contains(path[1..], sub))
  }

  /** A patch operation that touches sharing grants or marking references. */
  predicate TouchesRestrictions(op: PatchOp)
  {
    op.path.Some? && (Contains(op.path.value, "granted_refs") || Contains(op.path.value, "object_marking_refs"))
  }

  /** The test the comment above it describes: some operation changes markings or sharing (`.some` in place of `.map`). */
  predicate RestrictionsUpdateIntended(e: StreamEvent)
  {
    e.patch.Some? && exists i :: 0 <= i < |e.patch.value| && TouchesRestrictions(e.patch.value[i])
  }

  /** The reload decision with the intended test. */
  predicate TriggersReloadIntended(e: StreamEvent)
  {
    e.eventType == EVENT_TYPE_UPDATE && HasFiles(e) && RestrictionsUpdateIntended(e)
  }

  /** With the intended test a marking change still triggers a reload and a rename does not. */
  lemma IntendedTriggerSeparatesPatches()
    ensures TriggersReloadIntended(StreamEvent(EVENT_TYPE_UPDATE, "entity", Some(["file"]),
                                               Some([PatchOp(Some("/object_marking_refs/0"), "add")])))
    ensures !TriggersReloadIntended(StreamEvent(EVENT_TYPE_UPDATE, "entity", Some(["file"]),
                                                Some([PatchOp(Some("/name"), "replace")])))
  {
    var path := "/object_marking_refs/0";
    assert path[1..][..|"object_marking_refs"|] == "object_marking_refs";
    assert Contains(path[1..], "object_marking_refs");
    var e := StreamEvent(EVENT_TYPE_UPDATE, "entity", Some(["file"]), Some([PatchOp(Some(path), "add")]));
    assert TouchesRestrictions(e.patch.value[0]);
    assert !Contains("/name", "granted_refs");
    assert !Contains("/name", "object_marking_refs");
  }

  /** The written test admits an update that changes nothing access-related: a patch of a single
      `/name` replacement on an event with files still triggers a reload. */
  lemma AsWrittenTriggersOnUnrelatedPatch()
    ensures var e := StreamEvent(EVENT_TYPE_UPDATE, "entity", Some(["file"]), Some([PatchOp(Some("/name"), "replace")]));
            TriggersReload(e) && !RestrictionsUpdateIntended(e)
  {
    var e := StreamEvent(EVENT_TYPE_UPDATE, "entity", Some(["file"]), Some([PatchOp(Some("/name"), "replace")]));
    var op := e.patch.value[0];
    assert !Contains("/name", "granted_refs");
    assert !Contains("/name", "object_marking_refs");
    assert !TouchesRestrictions(op);
  }

  /** The intended test only holds when an operation touches restrictions, and every event it accepts
      is also accepted by the written one: the written rule over-approximates the intended one. */
  lemma IntendedImpliesAsWritten(e: StreamEvent)
    ensures RestrictionsUpdateIntended(e) ==> RestrictionsUpdateAsWritten(e)
    ensures RestrictionsUpdateIntended(e) <==>
              e.patch.Some? && exists op :: op in e.patch.value && TouchesRestrictions(op)
  {
    if e.patch.Some? && exists op :: op in e.patch.value && TouchesRestrictions(op) {
      var op :| op in e.patch.value && TouchesRestrictions(op);
      var i :| 0 <= i < |e.patch.value| && e.patch.value[i] == op;
    }
  }
}

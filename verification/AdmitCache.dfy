/**
 * A population member's admit outcome, read back from its session's log by a newest-first scan,
 * and the in-memory cache that must never tell anything else (app/internal/admitstatus/admitstatus.go).
 */
module AdmitCache {
  import opened Events

  const FAILURE := "plect.workflow_population.failure"
  const CONFLICT := "plect.workflow_population.conflict"
  const ADMIT_OK := "plect.workflow_population.admit_ok"
  const RETRY := "plect.workflow_population.retry"

  const SCANNED_TYPES := [FAILURE, CONFLICT, ADMIT_OK, RETRY]

  const ADMIT_REASONS := {"capacity", "up", "input", "task_setup"}

  datatype Status = Status(lastReason: string, lastError: string, consecutive: nat)

  const ELIGIBLE := Status("", "", 0)

  /** What an event says about a member's admission. */
  datatype Verdict = Reset | Refused | Nothing

  ghost function Classify(ev: Event, resource: string): Verdict {
    if Meta(ev, "resource") != resource then Nothing
    else if ev.typ == ADMIT_OK || ev.typ == RETRY then Reset
    else if ev.typ == FAILURE && Meta(ev, "reason") !in ADMIT_REASONS then Nothing
    else if ev.typ != FAILURE && ev.typ != CONFLICT then Nothing
    else Refused
  }

  /** A success or an operator's retry resets; a conflict, and a failure to admit, refuses; all else says nothing. */
  lemma {:induction false} ClassifyIs(ev: Event, resource: string)
    ensures Classify(ev, resource) == Reset <==>
              && Meta(ev, "resource") == resource
              && ev.typ in {"plect.workflow_population.admit_ok", "plect.workflow_population.retry"}
    ensures Classify(ev, resource) == Refused <==>
              && Meta(ev, "resource") == resource
              && (ev.typ == "plect.workflow_population.conflict"
                  || (ev.typ == "plect.workflow_population.failure"
                      && Meta(ev, "reason") in {"capacity", "up", "input", "task_setup"}))
  {
    assert ADMIT_OK != RETRY && FAILURE != CONFLICT && ADMIT_OK != CONFLICT && RETRY != CONFLICT;
    assert ADMIT_OK[26] != FAILURE[26] && RETRY[26] != FAILURE[26];
  }

  // ---- the scan -----------------------------------------------------------------------------

  /** A refusal counts, and names the streak when no newer one has given a reason. */
  ghost function Counted(status: Status, ev: Event): Status {
    var named := if status.lastReason == "" then status.(lastReason := Meta(ev, "reason"), lastError := ev.summary)
                 else status;
    named.(consecutive := named.consecutive + 1)
  }

  /** Going on from a status with older and older events; only the first reason found is kept. */
  ghost function ScanOn(events: seq<Event>, resource: string, status: Status): Status {
    if events == [] then status
    else
      var ev := events[|events| - 1];
      var older := events[..|events| - 1];
      match Classify(ev, resource)
      case Reset => status
      case Nothing => ScanOn(older, resource, status)
      case Refused =>
        ScanOn(older, resource, Counted(status, ev))
  }

  ghost function ScanOf(events: seq<Event>, resource: string): Status {
    ScanOn(events, resource, ELIGIBLE)
  }

  function OfTypes(events: seq<Event>): seq<Event> {
    if events == [] then []
    else OfTypes(events[..|events| - 1]) +
         if events[|events| - 1].typ in SCANNED_TYPES then [events[|events| - 1]] else []
  }

  /** Reading only the scanned types loses nothing. */
  lemma {:induction false} OtherTypesSayNothing(events: seq<Event>, resource: string, status: Status)
    ensures ScanOn(OfTypes(events), resource, status) == ScanOn(events, resource, status)
  {
    if events != [] {
      var older, ev := events[..|events| - 1], events[|events| - 1];
      assert events == older + [ev];
      ScanBack(older, ev, resource, status);
      ScanBack(OfTypes(older), ev, resource, status);
      OnlyScannedTypesTell(ev, resource);
      hide Classify, ScanOn;
      OtherTypesSayNothing(older, resource, status);
      OtherTypesSayNothing(older, resource, Counted(status, ev));
      if ev.typ !in SCANNED_TYPES {
        assert OfTypes(older) + [] == OfTypes(older);
      }
    }
  }

  lemma {:induction false} OnlyScannedTypesTell(ev: Event, resource: string)
    ensures ev.typ !in SCANNED_TYPES ==> Classify(ev, resource) == Nothing
  {
  }

  /** The scan takes the newest event first. */
  lemma {:induction false} ScanBack(older: seq<Event>, ev: Event, resource: string, status: Status)
    ensures ScanOn(older + [ev], resource, status) ==
            match Classify(ev, resource)
            case Reset => status
            case Nothing => ScanOn(older, resource, status)
            case Refused => ScanOn(older, resource, Counted(status, ev))
  {
    hide Classify;
    assert (older + [ev])[..|older|] == older;
  }

  /** scan, over what Tail returns of the log. */
  method Scan(log: seq<Event>, resource: string) returns (status: Status)
    ensures status == ScanOf(log, resource)
  {
    var events := OfTypes(log);
    OtherTypesSayNothing(log, resource, ELIGIBLE);
    status := ELIGIBLE;
    var i := |events| - 1;
    hide Classify, ScanOn, OfTypes;
    assert events[..|events|] == events;
    while i >= 0
      invariant -1 <= i < |events|
      invariant ScanOn(events[..i + 1], resource, status) == ScanOf(log, resource)
    {
      var ev := events[i];
      ScanBackAt(events, i, resource, status);
      if Meta(ev, "resource") != resource {
        i := i - 1;
        continue;
      }
      var reason := Meta(ev, "reason");
      if ev.typ == ADMIT_OK || ev.typ == RETRY {
        return status;
      }
      if (ev.typ == FAILURE && reason !in ADMIT_REASONS) || (ev.typ != FAILURE && ev.typ != CONFLICT) {
        i := i - 1;
        continue;
      }
      if status.lastReason == "" {
        status := status.(lastReason := reason, lastError := ev.summary);
      }
      status := status.(consecutive := status.consecutive + 1);
      i := i - 1;
    }
    NothingToScan(resource, status);
  }

  lemma {:induction false} NothingToScan(resource: string, status: Status)
    ensures ScanOn([], resource, status) == status && Streak([], resource) == []
  {
  }

  /** One turn of the loop, by the tests it makes. */
  lemma {:induction false} ScanBackAt(events: seq<Event>, i: nat, resource: string, status: Status)
    requires i < |events|
    ensures var ev, on := events[i], ScanOn(events[..i + 1], resource, status);
            if Meta(ev, "resource") != resource then on == ScanOn(events[..i], resource, status)
            else if ev.typ == ADMIT_OK || ev.typ == RETRY then on == status
            else if || (ev.typ == FAILURE && Meta(ev, "reason") !in ADMIT_REASONS)
                     || (ev.typ != FAILURE && ev.typ != CONFLICT)
            then on == ScanOn(events[..i], resource, status)
            else on == ScanOn(events[..i], resource, Counted(status, ev))
  {
    assert events[..i + 1] == events[..i] + [events[i]];
    ScanBack(events[..i], events[i], resource, status);
    hide ScanOn;
  }

  // ---- what the scan counts -----------------------------------------------------------------

  /** The member's refused admissions since its last reset, oldest first. */
  ghost function Streak(events: seq<Event>, resource: string): seq<Event> {
    if events == [] then []
    else
      var ev := events[|events| - 1];
      match Classify(ev, resource)
      case Reset => []
      case Nothing => Streak(events[..|events| - 1], resource)
      case Refused => Streak(events[..|events| - 1], resource) + [ev]
  }

  /** The refusal that names a streak: the newest one with a reason, or the oldest when none has any. */
  ghost function Naming(streak: seq<Event>): (ev: Event)
    requires streak != []
    ensures ev in streak
  {
    var last := streak[|streak| - 1];
    if Meta(last, "reason") != "" || |streak| == 1 then last else Naming(streak[..|streak| - 1])
  }

  lemma {:induction false} NamingIsNewest(streak: seq<Event>, k: nat)
    requires k < |streak| && Meta(streak[k], "reason") != ""
    requires forall l :: k < l < |streak| ==> Meta(streak[l], "reason") == ""
    ensures Naming(streak) == streak[k]
  {
    if k < |streak| - 1 {
      NamingIsNewest(streak[..|streak| - 1], k);
    }
  }

  /** The scan counts the streak exactly, and tells the reason and error of the refusal that names it. */
  lemma {:induction false} ScanTellsTheStreak(events: seq<Event>, resource: string, status: Status)
    ensures var streak := Streak(events, resource);
            ScanOn(events, resource, status) ==
              if status.lastReason != "" || streak == []
              then status.(consecutive := status.consecutive + |streak|)
              else Status(Meta(Naming(streak), "reason"), Naming(streak).summary, status.consecutive + |streak|)
  {
    hide Classify, Meta, ScanOn, Streak, Naming;
    if events == [] {
      NothingToScan(resource, status);
    } else {
      var older, ev := events[..|events| - 1], events[|events| - 1];
      assert events == older + [ev];
      ScanBack(older, ev, resource, status);
      StreakBack(older, ev, resource);
      match Classify(ev, resource) {
        case Reset =>
        case Nothing =>
          ScanTellsTheStreak(older, resource, status);
        case Refused =>
          ScanTellsTheStreak(older, resource, Counted(status, ev));
          NamingBack(Streak(older, resource), ev);
      }
    }
  }

  lemma {:induction false} StreakBack(older: seq<Event>, ev: Event, resource: string)
    ensures Streak(older + [ev], resource) ==
            match Classify(ev, resource)
            case Reset => []
            case Nothing => Streak(older, resource)
            case Refused => Streak(older, resource) + [ev]
  {
    hide Classify;
    assert (older + [ev])[..|older|] == older;
  }

  lemma {:induction false} NamingBack(front: seq<Event>, ev: Event)
    ensures Naming(front + [ev]) == if Meta(ev, "reason") != "" || front == [] then ev else Naming(front)
  {
    hide Meta;
    assert (front + [ev])[..|front|] == front;
  }

  /** What the newest event does to the scan of all before it. */
  lemma {:induction false} ScanOfOneMore(events: seq<Event>, ev: Event, resource: string)
    ensures var before, after := ScanOf(events, resource), ScanOf(events + [ev], resource);
            match Classify(ev, resource)
            case Reset => after == ELIGIBLE
            case Nothing => after == before
            case Refused =>
              after == if Meta(ev, "reason") != "" || before.consecutive == 0
                       then Status(Meta(ev, "reason"), ev.summary, before.consecutive + 1)
                       else before.(consecutive := before.consecutive + 1)
  {
    hide Classify;
    assert (events + [ev])[..|events|] == events;
    ScanTellsTheStreak(events, resource, ELIGIBLE);
    ScanTellsTheStreak(events, resource, Status(Meta(ev, "reason"), ev.summary, 1));
  }

  /** An event that is appended without being recorded is missed exactly when it changes the scan. */
  lemma {:induction false} UnrecordedEventIsMissed(events: seq<Event>, ev: Event, resource: string)
    ensures ScanOf(events + [ev], resource) == ScanOf(events, resource) <==>
            match Classify(ev, resource)
            case Nothing => true
            case Reset => ScanOf(events, resource) == ELIGIBLE
            case Refused => false
  {
    ScanOfOneMore(events, ev, resource);
  }

  // ---- the cache ------------------------------------------------------------------------------

  /** What Record makes of a status it already holds. */
  ghost function Recorded(status: Status, ok: bool, reason: string, errMsg: string): Status {
    if ok then ELIGIBLE else Status(reason, errMsg, status.consecutive + 1)
  }

  /** The logged event of one classified outcome. */
  ghost predicate Logs(ev: Event, resource: string, ok: bool, reason: string, errMsg: string) {
    if ok then Classify(ev, resource) == Reset
    else Classify(ev, resource) == Refused && Meta(ev, "reason") == reason && ev.summary == errMsg
  }

  /**
   * Updating in place agrees with scanning anew exactly when the outcome is a success or has a
   * reason, or there is no streak before it, or that streak is as nameless as it is and its
   * naming refusal has the same error text.
   */
  lemma {:induction false} RecordingIsScanning(events: seq<Event>, ev: Event, resource: string, ok: bool,
                                               reason: string, errMsg: string)
    requires Logs(ev, resource, ok, reason, errMsg)
    ensures var before := ScanOf(events, resource);
            Recorded(before, ok, reason, errMsg) == ScanOf(events + [ev], resource) <==>
            ok || reason != "" || before.consecutive == 0 || (before.lastReason == "" && before.lastError == errMsg)
  {
    ScanOfOneMore(events, ev, resource);
  }

  lemma {:induction false} NobodyElses(ev: Event, resource: string, ok: bool, reason: string, errMsg: string,
                                       other: string)
    requires Logs(ev, resource, ok, reason, errMsg) && other != resource
    ensures Classify(ev, other) == Nothing
  {
  }

  lemma {:induction false} ResetScans(events: seq<Event>, ev: Event, resource: string, ok: bool, reason: string,
                                      errMsg: string)
    requires Logs(ev, resource, ok, reason, errMsg)
    ensures ok ==> ScanOf(events + [ev], resource) == ELIGIBLE
  {
    ScanOfOneMore(events, ev, resource);
  }

  datatype Key = Key(session: string, resource: string)

  /** The cache beside the logs of its sessions, each within one incarnation. */
  class Cache {
    var log: map<string, seq<Event>>
    var m: map<Key, Status>

    constructor (log: map<string, seq<Event>>)
      ensures Valid() && this.log == log
    {
      this.log, m := log, map[];
    }

    function Events(session: string): seq<Event>
      reads this`log
    {
      if session in log then log[session] else []
    }

    /** Whatever is cached is what a scan of the current log would find. */
    ghost predicate Valid()
      reads this
    {
      forall k :: k in m ==> m[k] == ScanOf(Events(k.session), k.resource)
    }

    method Get(session: string, resource: string) returns (status: Status)
      modifies this`m
      ensures old(Valid()) ==>
                Valid() && status == if session == "" then ELIGIBLE else ScanOf(Events(session), resource)
      ensures session == "" ==> status == ELIGIBLE && m == old(m)
      ensures session != "" ==>
                var k := Key(session, resource);
                && status == (if k in old(m) then old(m)[k] else ScanOf(Events(session), resource))
                && m == old(m)[k := status]
    {
      if session == "" {
        return ELIGIBLE;
      }
      var k := Key(session, resource);
      if k in m {
        assert m == m[k := m[k]];
        return m[k];
      }
      status := Scan(Events(session), resource);
      m := m[k := status];
    }

    method Record(session: string, resource: string, ok: bool, reason: string, errMsg: string)
      modifies this`m
      ensures session == "" ==> m == old(m)
      ensures session != "" ==>
                var k := Key(session, resource);
                m == old(m)[k := if ok then ELIGIBLE
                                 else if k in old(m) then Recorded(old(m)[k], ok, reason, errMsg)
                                 else ScanOf(Events(session), resource)]
    {
      if session == "" {
        return;
      }
      var k := Key(session, resource);
      if ok {
        m := m[k := ELIGIBLE];
        return;
      }
      if k !in m {
        var scanned := Scan(Events(session), resource);
        m := m[k := scanned];
        return;
      }
      var status := m[k];
      status := status.(lastReason := reason, lastError := errMsg, consecutive := status.consecutive + 1);
      m := m[k := status];
    }

    /** An event that is no cached member's admit outcome. */
    method AppendOther(session: string, ev: Event)
      requires Valid()
      requires forall resource :: Key(session, resource) in m ==> Classify(ev, resource) == Nothing
      modifies this`log
      ensures Valid() && Events(session) == old(Events(session)) + [ev]
      ensures forall other :: other != session ==> Events(other) == old(Events(other))
    {
      hide Classify, ScanOf;
      ghost var before := Events(session);
      forall resource | Key(session, resource) in m
        ensures ScanOf(before + [ev], resource) == ScanOf(before, resource)
      {
        ScanOfOneMore(before, ev, resource);
      }
      log := log[session := Events(session) + [ev]];
    }

    /**
     * An event another process appends, such as the operator's retry: no cache entry changes,
     * so every entry stays right exactly when the event says nothing of a cached member, or
     * resets one that had nothing to reset.
     */
    method AppendElsewhere(session: string, ev: Event)
      requires Valid()
      modifies this`log
      ensures Events(session) == old(Events(session)) + [ev]
      ensures forall other :: other != session ==> Events(other) == old(Events(other))
      ensures Valid() <==>
              forall resource :: Key(session, resource) in m ==>
                match Classify(ev, resource)
                case Nothing => true
                case Reset => m[Key(session, resource)] == ELIGIBLE
                case Refused => false
    {
      hide Classify, ScanOf;
      ghost var before := Events(session);
      log := log[session := Events(session) + [ev]];
      forall resource | Key(session, resource) in m
        ensures m[Key(session, resource)] == ScanOf(Events(session), resource) <==>
                match Classify(ev, resource)
                case Nothing => true
                case Reset => m[Key(session, resource)] == ELIGIBLE
                case Refused => false
      {
        UnrecordedEventIsMissed(before, ev, resource);
      }
    }

    /** One classified outcome: it is appended to the log and then recorded. */
    method Outcome(session: string, resource: string, ok: bool, reason: string, errMsg: string, ev: Event)
      requires Valid() && session != ""
      requires Logs(ev, resource, ok, reason, errMsg) && (ok || reason != "")
      modifies this
      ensures Valid() && Events(session) == old(Events(session)) + [ev]
      ensures forall other :: other != session ==> Events(other) == old(Events(other))
    {
      hide Classify, ScanOf, Logs, Recorded;
      ghost var before := Events(session);
      forall other | Key(session, other) in m && other != resource
        ensures ScanOf(before + [ev], other) == ScanOf(before, other)
      {
        NobodyElses(ev, resource, ok, reason, errMsg, other);
        ScanOfOneMore(before, ev, other);
      }
      RecordingIsScanning(before, ev, resource, ok, reason, errMsg);
      ResetScans(before, ev, resource, ok, reason, errMsg);
      log := log[session := Events(session) + [ev]];
      Record(session, resource, ok, reason, errMsg);
    }
  }

  /** One step of a history around the cache. */
  datatype Step =
    | Look(session: string, resource: string)
    | Other(session: string, ev: Event)
    | Classified(session: string, resource: string, ok: bool, reason: string, errMsg: string, ev: Event)

  /** Events that are nobody's outcome, and outcomes with their own logged event and a reason. */
  ghost predicate Orderly(step: Step) {
    match step
    case Look(_, _) => true
    case Other(_, ev) => Classify(ev, Meta(ev, "resource")) == Nothing
    case Classified(session, resource, ok, reason, errMsg, ev) =>
      session != "" && Logs(ev, resource, ok, reason, errMsg) && (ok || reason != "")
  }

  ghost function Appended(steps: seq<Step>, session: string): seq<Event> {
    if steps == [] then []
    else
      var front, last := Appended(steps[..|steps| - 1], session), steps[|steps| - 1];
      if !last.Look? && last.session == session then front + [last.ev] else front
  }

  ghost function LogAt(log: map<string, seq<Event>>, steps: seq<Step>, session: string): seq<Event> {
    (if session in log then log[session] else []) + Appended(steps, session)
  }

  lemma {:induction false} LogNext(log: map<string, seq<Event>>, steps: seq<Step>, i: nat, session: string)
    requires i < |steps|
    ensures LogAt(log, steps[..i + 1], session) ==
              LogAt(log, steps[..i], session) +
              if !steps[i].Look? && steps[i].session == session then [steps[i].ev] else []
  {
    assert steps[..i + 1][..i] == steps[..i];
  }

  ghost predicate LookIsScan(log: map<string, seq<Event>>, steps: seq<Step>, i: nat, look: Status)
    requires i < |steps|
  {
    steps[i].Look? ==>
      look == if steps[i].session == "" then ELIGIBLE
              else ScanOf(LogAt(log, steps[..i], steps[i].session), steps[i].resource)
  }

  /** Over any history, every look at the cache tells what a scan of the log as it then stands would. */
  method Run(log: map<string, seq<Event>>, steps: seq<Step>) returns (looks: seq<Status>)
    requires forall i :: 0 <= i < |steps| ==> Orderly(steps[i])
    ensures |looks| == |steps|
    ensures forall i :: 0 <= i < |steps| ==> LookIsScan(log, steps, i, looks[i])
  {
    hide Classify, Logs, ScanOf, LogAt;
    var cache := new Cache(log);
    looks := [];
    forall s ensures cache.Events(s) == LogAt(log, steps[..0], s) {
      LogStart(log, s);
    }
    for i := 0 to |steps|
      invariant cache.Valid() && |looks| == i
      invariant forall s :: cache.Events(s) == LogAt(log, steps[..i], s)
      invariant forall j :: 0 <= j < i ==> LookIsScan(log, steps, j, looks[j])
    {
      var status := ELIGIBLE;
      forall s ensures LogAt(log, steps[..i + 1], s) == LogAt(log, steps[..i], s) +
                         if !steps[i].Look? && steps[i].session == s then [steps[i].ev] else []
      {
        LogNext(log, steps, i, s);
      }
      match steps[i] {
        case Look(session, resource) =>
          status := cache.Get(session, resource);
        case Other(session, ev) =>
          forall resource ensures Classify(ev, resource) == Nothing {
            NobodysOutcome(ev, resource);
          }
          cache.AppendOther(session, ev);
        case Classified(session, resource, ok, reason, errMsg, ev) =>
          cache.Outcome(session, resource, ok, reason, errMsg, ev);
      }
      looks := looks + [status];
    }
  }

  lemma {:induction false} LogStart(log: map<string, seq<Event>>, session: string)
    ensures LogAt(log, [], session) == if session in log then log[session] else []
  {
  }

  lemma {:induction false} NobodysOutcome(ev: Event, resource: string)
    requires Classify(ev, Meta(ev, "resource")) == Nothing
    ensures Classify(ev, resource) == Nothing
  {
  }

  /** A refused member that has been looked at stays refused for the cache after an operator's retry. */
  method RetryElsewhere(session: string, resource: string, errMsg: string, refusal: Event, retry: Event)
    returns (shown: Status, scanned: Status)
    requires session != "" && Logs(refusal, resource, false, "up", errMsg)
    requires retry.typ == RETRY && Meta(retry, "resource") == resource
    ensures shown == Status("up", errMsg, 1) && scanned == ELIGIBLE
  {
    hide ScanOf;
    var cache := new Cache(map[session := [refusal]]);
    OneRefusal(refusal, resource, errMsg);
    ScanOfOneMore([refusal], retry, resource);
    var _ := cache.Get(session, resource);
    cache.AppendElsewhere(session, retry);
    shown := cache.Get(session, resource);
    scanned := Scan(cache.Events(session), resource);
  }

  lemma {:induction false} OneRefusal(refusal: Event, resource: string, errMsg: string)
    requires Logs(refusal, resource, false, "up", errMsg)
    ensures ScanOf([refusal], resource) == Status("up", errMsg, 1)
  {
    ScanOfOneMore([], refusal, resource);
    assert [] + [refusal] == [refusal];
  }
}

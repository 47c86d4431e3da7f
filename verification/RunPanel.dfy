/**
The Start/Stop panel of one loop run, SelectedRun in
private-app/app/improvement-run-panel.tsx: frozen actions, one latch for each
operation, and guards on the status reads.

An action's key is the position of the log entry that minted it, a request's
name the position of the entry that sent it, and a status read's name the
position of the entry that started it.
*/
module RunPanel {
  import opened Wrappers

  datatype Operation = Start | Stop

  datatype Pair<T> = Pair(start: T, stop: T) {
    function Get(op: Operation): T { if op.Start? then start else stop }
    function With(op: Operation, value: T): Pair<T> { if op.Start? then Pair(value, stop) else Pair(start, value) }
  }

  datatype Body =
    | StartBody(version: nat, runLink: string, revision: int, route: string, cap: Option<string>)
    | StopBody(runLink: string)
  datatype Action = Action(key: nat, body: Body)

  datatype RunState = Ready | Running | Waiting | Blocked | Stopped | CandidateReady

  datatype Status = Status(revision: Option<int>, state: RunState, canStart: bool, canStop: bool,
                           confirmed: bool, started: bool, route: Option<string>, linked: bool)

  datatype Entry =
    | Minted(op: Operation, body: Body)
    | Sent(op: Operation, action: Action)
    | Settled(request: nat)
    | Refused(key: nat)
    | Cleared
    | Invalidated
    | ReadStarted
    | Accepted(read: nat, status: Status)

  type Log = seq<Entry>

  // ---------- what a log must look like ----------

  predicate ClearedSince(log: Log, from: nat) {
    exists i :: from < i < |log| && log[i] == Cleared
  }

  predicate RefusedSince(log: Log, key: nat) {
    exists i :: key < i < |log| && log[i] == Refused(key)
  }

  predicate SettledSince(log: Log, request: nat) {
    exists i :: request < i < |log| && log[i] == Settled(request)
  }

  /** The minted action at `key` may never be sent again. */
  predicate Retired(log: Log, key: nat)
    requires key < |log| && log[key].Minted?
  {
    ClearedSince(log, key) || (log[key].op == Start && RefusedSince(log, key))
  }

  predicate Quiet(log: Log, from: nat) {
    forall i | from < i < |log| :: !log[i].Sent? && log[i] != Invalidated
  }

  /** `status` is the one accepted last, and nothing was written since. */
  predicate Shown(log: Log, status: Status) {
    exists j :: 0 <= j < |log| && log[j].Accepted? && log[j].status == status && Quiet(log, j)
                && forall i | j < i < |log| :: !log[i].Accepted?
  }

  /** A Start names the revision and the route of the status shown, which allows it. */
  ghost predicate Warranted(log: Log, body: Body) {
    && body.StartBody?
    && exists s :: Shown(log, s) && s.canStart && s.confirmed && !s.started
                   && s.revision == Some(body.revision) && s.route == Some(body.route)
  }

  ghost predicate Step(log: Log, i: nat)
    requires i < |log|
  {
    var past := log[..i];
    match log[i]
    case Minted(op, body) =>
      && (forall k | 0 <= k < i && past[k].Minted? && past[k].op == op :: Retired(past, k))
      && (op == Start ==> Warranted(past, body))
    case Sent(op, a) =>
      && a.key < i && past[a.key] == Minted(op, a.body) && !Retired(past, a.key)
      && forall p | 0 <= p < i && past[p].Sent? && past[p].op == op :: SettledSince(past, p)
    case Accepted(r, s) =>
      && r < i && past[r] == ReadStarted && Quiet(past, r) && s.revision.Some?
      && forall j | 0 <= j < i && past[j].Accepted? ::
           && past[j].status.revision.Some? && past[j].status.revision.value <= s.revision.value
           && (past[j].status.state == Stopped && !ClearedSince(past, j) ==> s.state == Stopped)
    case _ => true
  }

  ghost predicate Sound(log: Log) {
    forall i | 0 <= i < |log| :: Step(log, i)
  }

  // ---------- what a sound log says ----------

  /** A second Start key is minted only after the first was refused or authority
      was cleared; a second Stop key only after authority was cleared. */
  lemma FreshKeysNeedRetirement(log: Log, j: nat, i: nat)
    requires Sound(log) && j < i < |log| && log[j].Minted? && log[i].Minted? && log[j].op == log[i].op
    ensures exists k :: j < k < i && (log[k] == Cleared || (log[i].op == Start && log[k] == Refused(j)))
  {
    assert Step(log, i);
    var past := log[..i];
    assert past[j] == log[j];
    assert Retired(past, j);
    if ClearedSince(past, j) {
      var k :| j < k < |past| && past[k] == Cleared;
      assert log[k] == Cleared;
    } else {
      var k :| j < k < |past| && past[k] == Refused(j);
      assert log[k] == Refused(j);
    }
  }

  /** Every Start expects the revision and route of the status accepted last, one
      asked for after the last request was sent. */
  lemma StartsNameTheLatestStatus(log: Log, i: nat)
    requires Sound(log) && i < |log| && log[i].Minted? && log[i].op == Start
    ensures exists j :: 0 <= j < i && log[j].Accepted? && log[i].body.StartBody?
              && log[j].status.revision == Some(log[i].body.revision) && log[j].status.route == Some(log[i].body.route)
              && log[j].status.confirmed && log[j].status.canStart && !log[j].status.started
              && log[j].read < j && forall k | log[j].read < k < i :: !log[k].Sent? && (j < k ==> !log[k].Accepted?)
  {
    assert Step(log, i);
    var past := log[..i];
    var s :| Shown(past, s) && s.canStart && s.confirmed && !s.started
             && s.revision == Some(log[i].body.revision) && s.route == Some(log[i].body.route);
    var j :| 0 <= j < |past| && past[j].Accepted? && past[j].status == s && Quiet(past, j)
             && forall k | j < k < |past| :: !past[k].Accepted?;
    assert past[j] == log[j] && Step(log, j);
    forall k | log[j].read < k < i
      ensures !log[k].Sent? && (j < k ==> !log[k].Accepted?)
    {
      if k < j {
        assert log[..j][k] == log[k];
      } else {
        assert past[k] == log[k];
      }
    }
    assert log[j].Accepted?;
  }

  /** Every request with one key carries the one body minted for it. */
  lemma RetriesAreIdentical(log: Log, p: nat, q: nat)
    requires Sound(log) && p < q < |log| && log[p].Sent? && log[q].Sent?
    requires log[p].action.key == log[q].action.key
    ensures log[p] == log[q]
    ensures log[p].action.key < p && log[log[p].action.key] == Minted(log[p].op, log[p].action.body)
  {
    assert Step(log, p) && Step(log, q);
  }

  /** One request of each operation is out at a time. */
  lemma OneRequestAtATime(log: Log, p: nat, q: nat)
    requires Sound(log) && p < q < |log| && log[p].Sent? && log[q].Sent? && log[p].op == log[q].op
    ensures exists k :: p < k < q && log[k] == Settled(p)
  {
    assert Step(log, q);
    var past := log[..q];
    assert past[p] == log[p];
    var k :| p < k < |past| && past[k] == Settled(p);
    assert log[k] == Settled(p);
  }

  /** No key is sent after its authority was cleared. */
  lemma NothingIsSentAcrossAClear(log: Log, c: nat, p: nat)
    requires Sound(log) && c < p < |log| && log[c] == Cleared && log[p].Sent?
    ensures c < log[p].action.key < p
  {
    assert Step(log, p);
    var past := log[..p];
    assert past[c] == Cleared;
    assert past[log[p].action.key] == log[log[p].action.key];
  }

  /** Accepted revisions never fall, and no read started before a request was
      sent is accepted after it. */
  lemma AcceptedStatusesAdvance(log: Log, j: nat, i: nat)
    requires Sound(log) && j < i < |log| && log[i].Accepted?
    ensures log[j].Accepted? ==>
              && log[j].status.revision.Some? && log[i].status.revision.Some?
              && log[j].status.revision.value <= log[i].status.revision.value
    ensures log[j].Sent? || log[j] == Invalidated ==> j < log[i].read
  {
    assert Step(log, i);
    assert log[..i][j] == log[j];
  }

  /** Within one period of authority a stopped run stays stopped. */
  lemma StoppedStaysStopped(log: Log, j: nat, i: nat)
    requires Sound(log) && j < i < |log| && log[j].Accepted? && log[i].Accepted?
    requires log[j].status.state == Stopped
    requires forall k | j < k < i :: log[k] != Cleared
    ensures log[i].status.state == Stopped
  {
    assert Step(log, i);
    assert log[..i][j] == log[j];
    assert !ClearedSince(log[..i], j);
  }

  // ---------- what the panel promises ----------

  predicate RetiredBetween(log: Log, j: nat, i: nat) {
    exists k :: 0 <= j < k < i < |log| && (log[k] == Cleared || (log[i].Minted? && log[i].op == Start && log[k] == Refused(j)))
  }

  /** At most one key of an operation at a time. */
  predicate KeysAreSingle(log: Log) {
    forall j, i | 0 <= j < i < |log| && log[j].Minted? && log[i].Minted? && log[j].op == log[i].op ::
      RetiredBetween(log, j, i)
  }

  /** What is sent was minted as it is, and not before a clearing. */
  predicate RequestsAreFrozen(log: Log) {
    forall p | 0 <= p < |log| && log[p].Sent? ::
      && log[p].action.key < p && log[log[p].action.key] == Minted(log[p].op, log[p].action.body)
      && forall c | log[p].action.key < c < p :: log[c] != Cleared
  }

  predicate SettledBetween(log: Log, p: nat, q: nat) {
    exists k :: 0 <= p < k < q < |log| && log[k] == Settled(p)
  }

  predicate RequestsAreSingle(log: Log) {
    forall p, q | 0 <= p < q < |log| && log[p].Sent? && log[q].Sent? && log[p].op == log[q].op :: SettledBetween(log, p, q)
  }

  /** Accepted revisions never fall, and no read is accepted across a request or
      across an invalidation, such as a protected failure brings. */
  predicate StatusesAdvance(log: Log) {
    forall j, i | 0 <= j < i < |log| && log[i].Accepted? ::
      && (log[j].Sent? || log[j] == Invalidated ==> j < log[i].read)
      && (log[j].Accepted? ==>
            && log[j].status.revision.Some? && log[i].status.revision.Some?
            && log[j].status.revision.value <= log[i].status.revision.value)
  }

  predicate Promised(log: Log) {
    KeysAreSingle(log) && RequestsAreFrozen(log) && RequestsAreSingle(log) && StatusesAdvance(log)
  }

  lemma SoundIsPromised(log: Log)
    requires Sound(log)
    ensures Promised(log)
  {
    forall j, i | 0 <= j < i < |log| && log[j].Minted? && log[i].Minted? && log[j].op == log[i].op
      ensures RetiredBetween(log, j, i)
    {
      FreshKeysNeedRetirement(log, j, i);
    }
    forall p | 0 <= p < |log| && log[p].Sent?
      ensures log[p].action.key < p && log[log[p].action.key] == Minted(log[p].op, log[p].action.body)
      ensures forall c | log[p].action.key < c < p :: log[c] != Cleared
    {
      assert Step(log, p);
      forall c | log[p].action.key < c < p
        ensures log[c] != Cleared
      {
        if log[c] == Cleared {
          NothingIsSentAcrossAClear(log, c, p);
        }
      }
    }
    forall p, q | 0 <= p < q < |log| && log[p].Sent? && log[q].Sent? && log[p].op == log[q].op
      ensures SettledBetween(log, p, q)
    {
      OneRequestAtATime(log, p, q);
    }
    forall j, i | 0 <= j < i < |log| && log[i].Accepted?
      ensures log[j].Sent? || log[j] == Invalidated ==> j < log[i].read
      ensures log[j].Accepted? ==>
                && log[j].status.revision.Some? && log[i].status.revision.Some?
                && log[j].status.revision.value <= log[i].status.revision.value
    {
      AcceptedStatusesAdvance(log, j, i);
    }
  }

  // ---------- the references agree with the log ----------

  predicate ActionSlot(log: Log, op: Operation, slot: Option<Action>) {
    && (slot.Some? ==> slot.value.key < |log| && log[slot.value.key] == Minted(op, slot.value.body)
                       && !Retired(log, slot.value.key))
    && forall k | 0 <= k < |log| && log[k].Minted? && log[k].op == op && (slot.Some? ==> k != slot.value.key) ::
         Retired(log, k)
  }

  /** `request` is the one Sent entry of `op` still waiting for its reply. */
  predicate LatchSlot(log: Log, op: Operation, request: Option<nat>) {
    && (request.Some? ==> request.value < |log| && log[request.value].Sent? && log[request.value].op == op)
    && forall p | 0 <= p < |log| && log[p].Sent? && log[p].op == op && (request.Some? ==> p != request.value) ::
         SettledSince(log, p)
  }

  /** The action out is the frozen one, or that one was cleared meanwhile. */
  predicate SameAction(log: Log, request: Option<nat>, slot: Option<Action>) {
    request.Some? && request.value < |log| && log[request.value].Sent? && slot.Some? ==>
      log[request.value].action == slot.value
  }

  predicate StatusSlot(log: Log, revision: int, safe: Option<Status>) {
    forall j | 0 <= j < |log| && log[j].Accepted? ::
      && log[j].status.revision.Some? && log[j].status.revision.value <= revision
      && (log[j].status.state == Stopped && !ClearedSince(log, j) ==> safe.Some? && safe.value.state == Stopped)
  }

  predicate ReadSlots(log: Log, epoch: nat, inFlight: map<nat, nat>) {
    forall r | r in inFlight ::
      && r < |log| && log[r] == ReadStarted && inFlight[r] <= epoch
      && (inFlight[r] == epoch ==> Quiet(log, r))
  }

  predicate CurrentSlot(log: Log, current: Option<Status>) {
    current.Some? ==> current.value.revision.Some? && Shown(log, current.value)
  }

  predicate Agrees(log: Log, actions: Pair<Option<Action>>, latch: Pair<Option<nat>>) {
    forall op: Operation ::
      && ActionSlot(log, op, actions.Get(op))
      && LatchSlot(log, op, latch.Get(op))
      && SameAction(log, latch.Get(op), actions.Get(op))
  }

  // ---------- appending one entry ----------

  lemma SoundAfter(log: Log, e: Entry)
    requires Sound(log) && Step(log + [e], |log|)
    ensures Sound(log + [e])
  {
    var next := log + [e];
    forall i | 0 <= i < |next|
      ensures Step(next, i)
    {
      if i < |log| {
        assert Step(log, i);
        assert next[..i] == log[..i];
      }
    }
  }

  /** What one more entry changes about the past. */
  lemma SinceAfter(log: Log, e: Entry, k: nat)
    requires k < |log|
    ensures ClearedSince(log + [e], k) <==> ClearedSince(log, k) || e == Cleared
    ensures RefusedSince(log + [e], k) <==> RefusedSince(log, k) || e == Refused(k)
    ensures SettledSince(log + [e], k) <==> SettledSince(log, k) || e == Settled(k)
    ensures Quiet(log + [e], k) <==> Quiet(log, k) && !e.Sent? && e != Invalidated
  {
    var next := log + [e];
    assert next[|log|] == e;
    assert forall i | 0 <= i < |log| :: next[i] == log[i];
  }

  lemma RetiredAfter(log: Log, e: Entry, k: nat)
    requires k < |log| && log[k].Minted?
    ensures Retired(log + [e], k) <==> Retired(log, k) || e == Cleared || (log[k].op == Start && e == Refused(k))
  {
    SinceAfter(log, e, k);
  }

  /** Entries that retire nothing and mint nothing keep every frozen action. */
  lemma ActionStays(log: Log, op: Operation, slot: Option<Action>, e: Entry)
    requires ActionSlot(log, op, slot)
    requires !(e.Minted? && e.op == op) && e != Cleared
    requires e.Refused? ==> slot.None? || slot.value.key != e.key || op == Stop
    ensures ActionSlot(log + [e], op, slot)
  {
    forall k | 0 <= k < |log| && log[k].Minted?
      ensures Retired(log + [e], k) <==> Retired(log, k) || (log[k].op == Start && e == Refused(k))
    {
      RetiredAfter(log, e, k);
    }
  }

  lemma ActionMinted(log: Log, op: Operation, body: Body)
    requires ActionSlot(log, op, None) && (op == Start ==> Warranted(log, body))
    ensures Step(log + [Minted(op, body)], |log|)
    ensures ActionSlot(log + [Minted(op, body)], op, Some(Action(|log|, body)))
  {
    var e := Minted(op, body);
    assert (log + [e])[..|log|] == log;
    forall k | 0 <= k < |log| && log[k].Minted?
      ensures Retired(log, k) ==> Retired(log + [e], k)
    {
      RetiredAfter(log, e, k);
    }
  }

  lemma ActionsCleared(log: Log, op: Operation)
    ensures ActionSlot(log + [Cleared], op, None)
  {
    forall k | 0 <= k < |log| && log[k].Minted?
      ensures Retired(log + [Cleared], k)
    {
      RetiredAfter(log, Cleared, k);
    }
  }

  /** A refusal of the action that is out retires it and frees the slot. */
  lemma StartRefused(log: Log, slot: Option<Action>, key: nat)
    requires ActionSlot(log, Start, slot) && (slot.Some? ==> slot.value.key == key)
    ensures ActionSlot(log + [Refused(key)], Start, None)
  {
    forall k | 0 <= k < |log| && log[k].Minted?
      ensures Retired(log + [Refused(key)], k) <==> Retired(log, k) || (log[k].op == Start && k == key)
    {
      RetiredAfter(log, Refused(key), k);
    }
  }

  lemma LatchStays(log: Log, op: Operation, request: Option<nat>, e: Entry)
    requires LatchSlot(log, op, request) && !(e.Sent? && e.op == op)
    ensures LatchSlot(log + [e], op, request)
  {
    forall p | 0 <= p < |log|
      ensures SettledSince(log, p) ==> SettledSince(log + [e], p)
    {
      SinceAfter(log, e, p);
    }
  }

  lemma LatchTaken(log: Log, op: Operation, a: Action)
    requires LatchSlot(log, op, None) && ActionSlot(log, op, Some(a))
    ensures Step(log + [Sent(op, a)], |log|)
    ensures LatchSlot(log + [Sent(op, a)], op, Some(|log|))
  {
    var e := Sent(op, a);
    assert (log + [e])[..|log|] == log;
    forall p | 0 <= p < |log|
      ensures SettledSince(log, p) ==> SettledSince(log + [e], p)
    {
      SinceAfter(log, e, p);
    }
  }

  lemma LatchReleased(log: Log, op: Operation, p: nat)
    requires LatchSlot(log, op, Some(p))
    ensures LatchSlot(log + [Settled(p)], op, None)
  {
    forall q | 0 <= q < |log|
      ensures SettledSince(log + [Settled(p)], q) <==> SettledSince(log, q) || q == p
    {
      SinceAfter(log, Settled(p), q);
    }
  }

  lemma StatusStays(log: Log, revision: int, safe: Option<Status>, e: Entry)
    requires StatusSlot(log, revision, safe) && !e.Accepted?
    ensures StatusSlot(log + [e], revision, if e == Cleared then None else safe)
  {
    forall j | 0 <= j < |log|
      ensures ClearedSince(log + [e], j) <==> ClearedSince(log, j) || e == Cleared
    {
      SinceAfter(log, e, j);
    }
  }

  lemma ReadsStay(log: Log, epoch: nat, inFlight: map<nat, nat>, e: Entry)
    requires ReadSlots(log, epoch, inFlight)
    ensures ReadSlots(log + [e], if e.Sent? || e == Invalidated then epoch + 1 else epoch, inFlight)
  {
    forall r | r in inFlight
      ensures Quiet(log + [e], r) <==> Quiet(log, r) && !e.Sent? && e != Invalidated
    {
      SinceAfter(log, e, r);
    }
  }

  lemma ShownStays(log: Log, current: Option<Status>, e: Entry)
    requires CurrentSlot(log, current) && !e.Accepted?
    ensures CurrentSlot(log + [e], if e.Sent? || e == Invalidated then None else current)
  {
    if current.Some? && !e.Sent? && e != Invalidated {
      var j :| 0 <= j < |log| && log[j].Accepted? && log[j].status == current.value && Quiet(log, j)
               && forall i | j < i < |log| :: !log[i].Accepted?;
      SinceAfter(log, e, j);
      assert (log + [e])[j] == log[j];
    }
  }

  lemma ShownAccepted(log: Log, r: nat, s: Status)
    requires s.revision.Some?
    ensures CurrentSlot(log + [Accepted(r, s)], Some(s))
  {
    var next := log + [Accepted(r, s)];
    assert next[|log|].Accepted? && Quiet(next, |log|);
  }

  lemma StatusAccepted(log: Log, revision: int, safe: Option<Status>, epoch: nat, inFlight: map<nat, nat>, r: nat, s: Status)
    requires StatusSlot(log, revision, safe) && ReadSlots(log, epoch, inFlight)
    requires r in inFlight && inFlight[r] == epoch && s.revision.Some? && revision <= s.revision.value
    requires safe.Some? && safe.value.state == Stopped ==> s.state == Stopped
    ensures Step(log + [Accepted(r, s)], |log|)
    ensures StatusSlot(log + [Accepted(r, s)], s.revision.value, Some(s))
  {
    var e := Accepted(r, s);
    var next := log + [e];
    assert next[..|log|] == log;
    assert next[|log|] == e;
    forall j | 0 <= j < |log|
      ensures ClearedSince(next, j) <==> ClearedSince(log, j)
    {
      SinceAfter(log, e, j);
    }
  }

  /** Entries that touch no action and no latch. */
  lemma AgreesStays(log: Log, actions: Pair<Option<Action>>, latch: Pair<Option<nat>>, e: Entry)
    requires Agrees(log, actions, latch)
    requires !e.Minted? && !e.Sent? && !e.Refused? && e != Cleared
    ensures Agrees(log + [e], actions, latch)
  {
    forall op: Operation
      ensures ActionSlot(log + [e], op, actions.Get(op)) && LatchSlot(log + [e], op, latch.Get(op))
    {
      ActionStays(log, op, actions.Get(op), e);
      LatchStays(log, op, latch.Get(op), e);
    }
  }

  lemma AgreesCleared(log: Log, actions: Pair<Option<Action>>, latch: Pair<Option<nat>>)
    requires Agrees(log, actions, latch)
    ensures Agrees(log + [Cleared], Pair(None, None), latch)
  {
    forall op: Operation
      ensures ActionSlot(log + [Cleared], op, None) && LatchSlot(log + [Cleared], op, latch.Get(op))
    {
      ActionsCleared(log, op);
      LatchStays(log, op, latch.Get(op), Cleared);
    }
  }

  lemma AgreesMinted(log: Log, actions: Pair<Option<Action>>, latch: Pair<Option<nat>>, op: Operation, body: Body)
    requires Agrees(log, actions, latch) && actions.Get(op).None? && latch.Get(op).None?
    requires op == Start ==> Warranted(log, body)
    ensures Step(log + [Minted(op, body)], |log|)
    ensures Agrees(log + [Minted(op, body)], actions.With(op, Some(Action(|log|, body))), latch)
  {
    var e := Minted(op, body);
    ActionMinted(log, op, body);
    var minted := actions.With(op, Some(Action(|log|, body)));
    forall o: Operation
      ensures ActionSlot(log + [e], o, minted.Get(o)) && LatchSlot(log + [e], o, latch.Get(o))
      ensures SameAction(log + [e], latch.Get(o), minted.Get(o))
    {
      LatchStays(log, o, latch.Get(o), e);
      if o != op {
        ActionStays(log, o, actions.Get(o), e);
      }
    }
  }

  lemma AgreesSent(log: Log, actions: Pair<Option<Action>>, latch: Pair<Option<nat>>, op: Operation)
    requires Agrees(log, actions, latch) && actions.Get(op).Some? && latch.Get(op).None?
    ensures var e := Sent(op, actions.Get(op).value);
            Step(log + [e], |log|) && Agrees(log + [e], actions, latch.With(op, Some(|log|)))
  {
    var e := Sent(op, actions.Get(op).value);
    LatchTaken(log, op, actions.Get(op).value);
    forall o: Operation
      ensures ActionSlot(log + [e], o, actions.Get(o))
      ensures o != op ==> LatchSlot(log + [e], o, latch.Get(o))
    {
      ActionStays(log, o, actions.Get(o), e);
      if o != op {
        LatchStays(log, o, latch.Get(o), e);
      }
    }
  }

  /** The key a request carries. */
  function RequestKey(log: Log, request: nat): nat {
    if request < |log| && log[request].Sent? then log[request].action.key else 0
  }

  lemma AgreesRefused(log: Log, actions: Pair<Option<Action>>, latch: Pair<Option<nat>>)
    requires Agrees(log, actions, latch) && latch.start.Some?
    ensures Agrees(log + [Refused(RequestKey(log, latch.start.value))], actions.With(Start, None), latch)
  {
    var key := RequestKey(log, latch.Get(Start).value);
    var e := Refused(key);
    assert SameAction(log, latch.Get(Start), actions.Get(Start));
    StartRefused(log, actions.Get(Start), key);
    ActionStays(log, Stop, actions.Get(Stop), e);
    forall o: Operation
      ensures LatchSlot(log + [e], o, latch.Get(o))
    {
      LatchStays(log, o, latch.Get(o), e);
    }
  }

  lemma AgreesSettled(log: Log, actions: Pair<Option<Action>>, latch: Pair<Option<nat>>, op: Operation)
    requires Agrees(log, actions, latch) && latch.Get(op).Some?
    ensures Agrees(log + [Settled(latch.Get(op).value)], actions, latch.With(op, None))
  {
    var e := Settled(latch.Get(op).value);
    LatchReleased(log, op, latch.Get(op).value);
    forall o: Operation
      ensures ActionSlot(log + [e], o, actions.Get(o))
      ensures o != op ==> LatchSlot(log + [e], o, latch.Get(o))
    {
      ActionStays(log, o, actions.Get(o), e);
      if o != op {
        LatchStays(log, o, latch.Get(o), e);
      }
    }
  }

  // ---------- the panel ----------

  /** The saved request shown; the panel is rebuilt when any part changes. */
  datatype Request = Request(version: nat, runLink: Option<string>)

  /** What the latest render and the device add to a click. */
  datatype Screen = Screen(online: bool, deskFresh: bool, readIdle: bool, paid: bool, cap: string)

  datatype ReceiptState = Refusal | Uncertain | Done
  datatype Outcome = Receipt(versionMatches: bool, state: ReceiptState) | Failure(isProtected: bool, status: nat)
  datatype ReadOutcome = Answer(matches: bool, status: Status) | ReadFailure(isProtected: bool)

  datatype Event =
    | PollStarts
    | PollEnds(read: nat, answer: ReadOutcome, aborted: bool)
    | ValueDropped
    | Click(op: Operation, replay: bool, screen: Screen)
    | Reply(op: Operation, outcome: Outcome)
    | DecisionInvalidates
    | DecisionClears
    | Mounting(mounts: bool)

  predicate CapValid(cap: string) {
    1 <= |cap| <= 30 && '1' <= cap[0] <= '9' && forall c | c in cap :: '0' <= c <= '9'
  }

  // ---------- the cap a paid Start carries ----------

  function Power10(n: nat): nat { if n == 0 then 1 else 10 * Power10(n - 1) }

  function Digit(d: nat): char
    requires d < 10
  {
    '0' + d as char
  }

  /** The usual decimal form of a number, without leading zeros. */
  function Decimal(n: nat): string {
    if n < 10 then [Digit(n)] else Decimal(n / 10) + [Digit(n % 10)]
  }

  function DigitValue(c: char): nat { if '0' <= c <= '9' then c as nat - '0' as nat else 0 }

  function Value(s: string): nat {
    if s == [] then 0 else 10 * Value(s[..|s| - 1]) + DigitValue(s[|s| - 1])
  }

  lemma {:induction false} DecimalOfValue(s: string)
    requires s != [] && '1' <= s[0] <= '9' && forall c | c in s :: '0' <= c <= '9'
    ensures 1 <= Value(s) < Power10(|s|) && Decimal(Value(s)) == s
  {
    var init, last := s[..|s| - 1], s[|s| - 1];
    assert last in s && Digit(DigitValue(last)) == last;
    assert s == init + [last];
    if |s| == 1 {
      assert Value(init) == 0 && Power10(1) == 10;
    } else {
      forall c | c in init
        ensures '0' <= c <= '9'
      {
        assert c in s;
      }
      DecimalOfValue(init);
      assert Value(s) / 10 == Value(init) && Value(s) % 10 == DigitValue(last);
    }
  }

  lemma {:induction false} DecimalIsWellFormed(n: nat, width: nat)
    requires 1 <= n < Power10(width)
    ensures var s := Decimal(n); 1 <= |s| <= width && '1' <= s[0] <= '9' && forall c | c in s :: '0' <= c <= '9'
  {
    if n >= 10 {
      assert width > 0;
      DecimalIsWellFormed(n / 10, width - 1);
    }
  }

  /** The caps that are let through are exactly the decimal forms of the numbers from
      1 to 10^30 - 1. */
  lemma CapIsANumber(cap: string)
    ensures CapValid(cap) <==> exists n :: 1 <= n < Power10(30) && cap == Decimal(n)
  {
    if CapValid(cap) {
      DecimalOfValue(cap);
      PowersGrow(|cap|, 30);
      assert cap == Decimal(Value(cap));
    }
    if exists n :: 1 <= n < Power10(30) && cap == Decimal(n) {
      var n :| 1 <= n < Power10(30) && cap == Decimal(n);
      DecimalIsWellFormed(n, 30);
    }
  }

  lemma {:induction false} PowersGrow(a: nat, b: nat)
    requires a <= b
    ensures Power10(a) <= Power10(b)
  {
    if a < b {
      PowersGrow(a, b - 1);
    }
  }

  class Panel {
    const row: Request
    var mounted: bool
    var actions: Pair<Option<Action>>
    var latch: Pair<Option<nat>>
    var pending: Pair<bool>
    var retry: Pair<bool>
    var writeEpoch: nat
    var revision: int
    var verifiedRead: bool
    var current: Option<Status>
    var safe: Option<Status>
    var inFlight: map<nat, nat>
    var log: Log

    ghost predicate Valid()
      reads this
    {
      && Sound(log)
      && Agrees(log, actions, latch)
      && StatusSlot(log, revision, safe)
      && ReadSlots(log, writeEpoch, inFlight)
      && CurrentSlot(log, current)
    }

    constructor (request: Request)
      ensures Valid() && row == request && log == []
    {
      row, mounted, log := request, true, [];
      actions, latch := Pair(None, None), Pair(None, None);
      pending, retry := Pair(false, false), Pair(false, false);
      writeEpoch, revision, verifiedRead := 0, -1, false;
      current, safe, inFlight := None, None, map[];
    }

    /** clearProtected */
    method Clear()
      requires Valid()
      modifies this`log, this`actions, this`safe, this`verifiedRead, this`retry
      ensures Valid() && log == old(log) + [Cleared]
      ensures actions == Pair(None, None) && safe == None && !verifiedRead && retry == Pair(false, false)
    {
      AgreesCleared(log, actions, latch);
      StatusStays(log, revision, safe, Cleared);
      ReadsStay(log, writeEpoch, inFlight, Cleared);
      ShownStays(log, current, Cleared);
      SoundAfter(log, Cleared);
      verifiedRead, safe, actions, retry := false, None, Pair(None, None), Pair(false, false);
      log := log + [Cleared];
    }

    /** A write elsewhere: the epoch moves and the shown value is dropped. */
    method Invalidate()
      requires Valid()
      modifies this`log, this`writeEpoch, this`current
      ensures Valid() && log == old(log) + [Invalidated] && writeEpoch == old(writeEpoch) + 1 && current == None
    {
      AgreesStays(log, actions, latch, Invalidated);
      StatusStays(log, revision, safe, Invalidated);
      ReadsStay(log, writeEpoch, inFlight, Invalidated);
      ShownStays(log, current, Invalidated);
      SoundAfter(log, Invalidated);
      log, writeEpoch, current := log + [Invalidated], writeEpoch + 1, None;
    }

    method StartRead()
      requires Valid()
      modifies this`log, this`verifiedRead, this`inFlight
      ensures Valid() && log == old(log) + [ReadStarted] && !verifiedRead
      ensures inFlight == old(inFlight)[|old(log)| := writeEpoch]
    {
      AgreesStays(log, actions, latch, ReadStarted);
      StatusStays(log, revision, safe, ReadStarted);
      ReadsStay(log, writeEpoch, inFlight, ReadStarted);
      ShownStays(log, current, ReadStarted);
      SoundAfter(log, ReadStarted);
      verifiedRead := false;
      inFlight := inFlight[|log| := writeEpoch];
      log := log + [ReadStarted];
    }

    method Accept(r: nat, status: Status)
      requires Valid() && r in inFlight && inFlight[r] == writeEpoch
      requires status.revision.Some? && revision <= status.revision.value
      requires safe.Some? && safe.value.state == Stopped ==> status.state == Stopped
      modifies this`log, this`revision, this`verifiedRead, this`safe, this`current, this`inFlight
      ensures Valid() && log == old(log) + [Accepted(r, status)] && verifiedRead && inFlight == old(inFlight) - {r}
      ensures safe == current == Some(status) && revision == status.revision.value
    {
      var e := Accepted(r, status);
      StatusAccepted(log, revision, safe, writeEpoch, inFlight, r, status);
      AgreesStays(log, actions, latch, e);
      ReadsStay(log, writeEpoch, inFlight, e);
      ShownAccepted(log, r, status);
      SoundAfter(log, e);
      revision, verifiedRead, log := status.revision.value, true, log + [e];
      safe, current, inFlight := Some(status), Some(status), inFlight - {r};
    }

    method Reject(r: nat)
      requires Valid()
      modifies this`inFlight, this`verifiedRead, this`current
      ensures Valid() && inFlight == old(inFlight) - {r} && !verifiedRead && current == None
    {
      verifiedRead, current, inFlight := false, None, inFlight - {r};
    }

    /** The guards of one status read: an answer counts only when nothing was
        written since it was asked for, its revision is no older and it does not
        revive a stopped run. */
    method EndRead(r: nat, outcome: ReadOutcome, aborted: bool) returns (accepted: bool)
      requires Valid() && r in inFlight
      modifies this
      ensures Valid() && old(log) <= log && mounted == old(mounted) && writeEpoch == old(writeEpoch)
      ensures latch == old(latch) && pending == old(pending)
      ensures inFlight == old(inFlight) - {r}
      ensures accepted <==>
                && outcome.Answer? && outcome.matches && !aborted && old(inFlight)[r] == old(writeEpoch)
                && outcome.status.revision.Some? && old(revision) <= outcome.status.revision.value
                && (old(safe).Some? && old(safe).value.state == Stopped ==> outcome.status.state == Stopped)
      ensures accepted ==>
                && log == old(log) + [Accepted(r, outcome.status)] && verifiedRead && actions == old(actions)
                && safe == current == Some(outcome.status) && revision == outcome.status.revision.value
      ensures !accepted ==> !verifiedRead && current == None && revision == old(revision)
      ensures !accepted ==>
                if (outcome.Answer? && !outcome.matches) || (outcome.ReadFailure? && outcome.isProtected)
                then log == old(log) + [Cleared] && actions == Pair(None, None) && safe == None
                else log == old(log) && actions == old(actions) && safe == old(safe)
    {
      var captured := inFlight[r];
      if outcome.Answer? && outcome.matches && captured == writeEpoch && !aborted && outcome.status.revision.Some?
         && revision <= outcome.status.revision.value
         && (safe.Some? && safe.value.state == Stopped ==> outcome.status.state == Stopped) {
        Accept(r, outcome.status);
        return true;
      }
      Reject(r);
      if (outcome.Answer? && !outcome.matches) || (outcome.ReadFailure? && outcome.isProtected) {
        Clear();
      }
      return false;
    }

    predicate StatusFresh(screen: Screen)
      reads this
    {
      screen.deskFresh && current.Some? && screen.readIdle
    }

    predicate CanStart(screen: Screen)
      reads this
    {
      && StatusFresh(screen) && current.value.canStart && current.value.confirmed && !current.value.started
      && current.value.route.Some? && (!screen.paid || CapValid(screen.cap))
      && actions.start.None? && !pending.start && !pending.stop
    }

    function StartNow(screen: Screen): Body
      requires row.runLink.Some? && CanStart(screen) && current.value.revision.Some?
      reads this
    {
      StartBody(row.version, row.runLink.value, current.value.revision.value, current.value.route.value,
                if screen.paid then Some(screen.cap) else None)
    }

    predicate StopTarget()
      reads this
    {
      var snapshot := if current.Some? then current else safe;
      && snapshot.Some? && snapshot.value.canStop && snapshot.value.started && snapshot.value.linked
      && snapshot.value.state != Stopped && snapshot.value.state != CandidateReady
    }

    method Mint(op: Operation, body: Body)
      requires Valid() && actions.Get(op).None? && latch.Get(op).None?
      requires op == Start ==> Warranted(log, body)
      modifies this`log, this`actions
      ensures Valid() && log == old(log) + [Minted(op, body)]
      ensures actions == old(actions).With(op, Some(Action(|old(log)|, body)))
    {
      var e := Minted(op, body);
      AgreesMinted(log, actions, latch, op, body);
      StatusStays(log, revision, safe, e);
      ReadsStay(log, writeEpoch, inFlight, e);
      ShownStays(log, current, e);
      SoundAfter(log, e);
      actions := actions.With(op, Some(Action(|log|, body)));
      log := log + [e];
    }

    method Send(op: Operation)
      requires Valid() && actions.Get(op).Some? && latch.Get(op).None?
      modifies this`log, this`latch, this`pending, this`retry, this`writeEpoch, this`current
      ensures Valid() && log == old(log) + [Sent(op, actions.Get(op).value)]
      ensures latch == old(latch).With(op, Some(|old(log)|)) && pending == old(pending).With(op, true)
      ensures retry == old(retry).With(op, false) && writeEpoch == old(writeEpoch) + 1 && current == None
    {
      var e := Sent(op, actions.Get(op).value);
      AgreesSent(log, actions, latch, op);
      StatusStays(log, revision, safe, e);
      ReadsStay(log, writeEpoch, inFlight, e);
      ShownStays(log, current, e);
      SoundAfter(log, e);
      latch, pending, retry := latch.With(op, Some(|log|)), pending.With(op, true), retry.With(op, false);
      log, writeEpoch, current := log + [e], writeEpoch + 1, None;
    }

    /** A click. A retry sends the frozen action, a fresh click one minted now. */
    method Submit(op: Operation, replay: bool, screen: Screen) returns (sent: Option<Action>)
      requires Valid()
      modifies this
      ensures Valid() && mounted == old(mounted) && safe == old(safe) && revision == old(revision)
      ensures sent.None? ==> log == old(log) && actions == old(actions) && latch == old(latch)
      ensures sent.Some? ==> old(latch).Get(op).None? && sent == actions.Get(op) && latch.Get(op).Some?
      ensures sent.Some? && replay ==> sent == old(actions).Get(op) && log == old(log) + [Sent(op, sent.value)]
      // a Start: nothing else pending, nothing frozen, a status just verified that allows it
      ensures op.Start? && !replay ==>
                (sent.Some? <==>
                  && screen.online && row.runLink.Some? && old(latch).start.None? && old(verifiedRead)
                  && screen.deskFresh && screen.readIdle && old(current).Some?
                  && old(current).value.canStart && old(current).value.confirmed && !old(current).value.started
                  && old(current).value.route.Some? && (screen.paid ==> CapValid(screen.cap))
                  && old(actions).start.None? && !old(pending).start && !old(pending).stop)
      ensures op.Start? && replay ==>
                (sent.Some? <==>
                  && screen.online && row.runLink.Some? && old(latch).start.None? && old(verifiedRead)
                  && screen.deskFresh && screen.readIdle && old(current).Some? && old(actions).start.Some?)
      // a Stop: of a linked run that was started and has not ended, frozen once
      ensures op.Stop? ==>
                (sent.Some? <==>
                  && screen.online && row.runLink.Some? && old(latch).stop.None?
                  && old(safe).Some? && old(safe).value.canStop
                  && (replay <==> old(actions).stop.Some?)
                  && var seen := (if old(current).Some? then old(current) else old(safe)).value;
                  && seen.canStop && seen.started && seen.linked && seen.state != Stopped && seen.state != CandidateReady)
      ensures sent.Some? && !replay ==>
                && old(actions).Get(op).None? && sent.value.key == |old(log)|
                && log == old(log) + [Minted(op, sent.value.body), Sent(op, sent.value)]
                && row.runLink.Some?
      ensures sent.Some? && !replay && op.Stop? ==> sent.value.body == StopBody(row.runLink.value)
      ensures sent.Some? && !replay && op.Start? ==>
                && var body := sent.value.body;
                && body.StartBody? && body.version == row.version && body.runLink == row.runLink.value
                && Some(body.revision) == old(current).value.revision && Some(body.route) == old(current).value.route
                && (body.cap.Some? <==> screen.paid)
                && (screen.paid ==> body.cap == Some(screen.cap) && CapValid(screen.cap))
    {
      if latch.Get(op).Some? || !screen.online || row.runLink.None? {
        return None;
      }
      if op.Stop? && !(safe.Some? && safe.value.canStop) {
        return None;
      }
      if replay {
        if actions.Get(op).None? || (op.Start? && (!StatusFresh(screen) || !verifiedRead)) || (op.Stop? && !StopTarget()) {
          return None;
        }
      } else {
        if op.Start? {
          if !verifiedRead || !CanStart(screen) {
            return None;
          }
          Mint(Start, StartNow(screen));
        } else {
          if !StopTarget() || actions.stop.Some? {
            return None;
          }
          Mint(Stop, StopBody(row.runLink.value));
        }
      }
      sent := actions.Get(op);
      Send(op);
    }

    /** A definitive refusal of the Start that is out. */
    method Refuse()
      requires Valid() && latch.start.Some?
      modifies this`log, this`actions
      ensures Valid() && log == old(log) + [Refused(RequestKey(old(log), latch.start.value))]
      ensures actions == old(actions).With(Start, None)
    {
      var e := Refused(RequestKey(log, latch.start.value));
      AgreesRefused(log, actions, latch);
      StatusStays(log, revision, safe, e);
      ReadsStay(log, writeEpoch, inFlight, e);
      ShownStays(log, current, e);
      SoundAfter(log, e);
      actions := actions.With(Start, None);
      log := log + [e];
    }

    method Settle(op: Operation)
      requires Valid() && latch.Get(op).Some?
      modifies this`log, this`latch, this`pending
      ensures Valid() && log == old(log) + [Settled(old(latch).Get(op).value)]
      ensures latch == old(latch).With(op, None)
      ensures pending == if mounted then old(pending).With(op, false) else old(pending)
    {
      var e := Settled(latch.Get(op).value);
      AgreesSettled(log, actions, latch, op);
      StatusStays(log, revision, safe, e);
      ReadsStay(log, writeEpoch, inFlight, e);
      ShownStays(log, current, e);
      SoundAfter(log, e);
      latch := latch.With(op, None);
      log := log + [e];
      if mounted {
        pending := pending.With(op, false);
      }
    }

    /** The reply to a request. Only a refused Start frees its frozen action; a
        protected failure clears everything; anything else keeps it for a retry. */
    method OnReply(op: Operation, outcome: Outcome)
      requires Valid() && latch.Get(op).Some?
      modifies this
      ensures Valid() && old(log) <= log && latch == old(latch).With(op, None) && mounted == old(mounted)
      ensures var clears := if outcome.Receipt? then op.Start? && !outcome.versionMatches else outcome.isProtected;
              var refuses := op.Start? && !clears &&
                             (if outcome.Receipt? then outcome.state == Refusal else outcome.status in {400, 409, 422});
              && actions == (if !mounted then old(actions) else if clears then Pair(None, None)
                             else if refuses then old(actions).With(Start, None) else old(actions))
              && log == old(log)
                        + (if !mounted then [] else if clears then [Cleared, Invalidated]
                           else if refuses then [Refused(RequestKey(old(log), old(latch).start.value))] else [])
                        + [Settled(old(latch).Get(op).value)]
              && writeEpoch == old(writeEpoch) + (if mounted && clears then 1 else 0)
              && (mounted && clears ==> safe == None && current == None && !verifiedRead)
              && (!(mounted && clears) ==> safe == old(safe) && current == old(current) && verifiedRead == old(verifiedRead))
              && retry == (if !mounted then old(retry) else if clears then Pair(false, false)
                           else if refuses then old(retry).With(Start, false)
                           else old(retry).With(op, outcome.Failure? || outcome.state == Uncertain))
      ensures pending == if mounted then old(pending).With(op, false) else old(pending)
    {
      if mounted {
        if if outcome.Receipt? then op.Start? && !outcome.versionMatches else outcome.isProtected {
          Clear();
          Invalidate();
        } else if outcome.Receipt? {
          if op.Start? && outcome.state == Refusal {
            Refuse();
          }
          retry := retry.With(op, outcome.state == Uncertain);
        } else if op.Start? && outcome.status in {400, 409, 422} {
          Refuse();
          retry := retry.With(Start, false);
        } else {
          retry := retry.With(op, true);
        }
      }
      Settle(op);
    }

    method Handle(e: Event)
      requires Valid()
      modifies this
      ensures Valid() && old(log) <= log
      ensures e.PollStarts? ==> log == old(log) + [ReadStarted]
      ensures e.Reply? ==> latch.Get(e.op).None?
      ensures e.DecisionClears? ==> actions == Pair(None, None) && safe == None
      ensures e.DecisionInvalidates? || e.DecisionClears? ==> writeEpoch == old(writeEpoch) + 1 && !verifiedRead
      ensures mounted == if e.Mounting? then e.mounts else old(mounted)
      ensures e.PollEnds? ==> e.read !in inFlight
      ensures e.ValueDropped? ==> current == None && log == old(log)
      ensures e.DecisionInvalidates? ==> log == old(log) + [Invalidated] && current == None && actions == old(actions)
      ensures e.DecisionClears? ==> log == old(log) + [Cleared, Invalidated]
      ensures e.Click? ==>
                || log == old(log)
                || (log[|log| - 1].Sent? && log[|log| - 1].op == e.op && |log| == |old(log)| + if e.replay then 1 else 2)
      ensures e.Click? && e.screen.online && row.runLink.Some? && old(latch).Get(e.op).None? ==>
                (log != old(log) <==>
                  if e.op.Start? then
                    && old(verifiedRead)
                    && if e.replay then old(actions).start.Some? && old(StatusFresh(e.screen)) else old(CanStart(e.screen))
                  else
                    && old(safe).Some? && old(safe).value.canStop && old(StopTarget())
                    && (e.replay <==> old(actions).stop.Some?))
    {
      match e
      case PollStarts => StartRead();
      case PollEnds(r, outcome, aborted) =>
        if r in inFlight {
          var _ := EndRead(r, outcome, aborted);
        }
      case ValueDropped => current := None;
      case Click(op, replay, screen) => var _ := Submit(op, replay, screen);
      case Reply(op, outcome) =>
        if latch.Get(op).Some? {
          OnReply(op, outcome);
        }
      case DecisionInvalidates =>
        verifiedRead := false;
        Invalidate();
      case DecisionClears =>
        Clear();
        Invalidate();
      case Mounting(mounts) => mounted := mounts;
    }

    /** Any sequence of events: what the panel promises holds of all that happened. */
    method Run(events: seq<Event>)
      requires Valid()
      modifies this
      ensures Valid() && old(log) <= log && Promised(log)
    {
      for i := 0 to |events|
        invariant Valid() && old(log) <= log
      {
        Handle(events[i]);
      }
      SoundIsPromised(log);
    }
  }
}

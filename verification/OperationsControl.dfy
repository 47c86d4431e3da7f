/**
The operations-mode reader and writer of private-app/app/operations-control.tsx:
one slot for a pending read, one for a pending write, and handlers that replies,
polls, focus, visibility changes and clicks may call in any order.

A read or a write is named by the position of the log entry that records its
start, so "started later" is a comparison of names.
*/
module OperationsControl {
  import opened Wrappers

  datatype Mode = Running | Paused | Draining | Stopped
  datatype View = View(mode: Mode, reason: string)

  datatype Cause = Visible | Explicit | AfterWrite

  datatype Entry =
    | ReadStarted(cause: Cause)
    | ReadCancelled(read: nat)
    | ViewSet(read: nat, view: View)
    | ReadFailed(read: nat)
    | ReplyDropped
    | WriteSent
    | WriteReplied(write: nat, confirmed: bool)
    | WriteJoined(write: nat, read: nat)
    | WriteFinished(write: nat)

  type Log = seq<Entry>

  /** Entries that leave a pending read pending. */
  predicate Harmless(e: Entry) {
    e.ReplyDropped? || e.WriteReplied? || e.WriteJoined? || e.WriteFinished?
  }

  /** `r` was started, and since then no read was started, settled or cancelled
      and no write was sent. */
  predicate Open(log: Log, r: nat) {
    && r < |log| && log[r].ReadStarted?
    && forall i | r < i < |log| :: Harmless(log[i])
  }

  predicate Finished(log: Log, w: nat) {
    exists i :: w < i < |log| && log[i] == WriteFinished(w)
  }

  predicate Replied(log: Log, w: nat) {
    exists i :: w < i < |log| && log[i].WriteReplied? && log[i].write == w
  }

  /** Where a write stands: waiting for its own reply, or for the read after it. */
  datatype Write = Write(id: nat, replied: bool)

  /** What each kind of entry finds in the log before it. */
  predicate Step(log: Log, i: nat)
    requires i < |log|
  {
    match log[i]
    case ViewSet(r, _) => Open(log[..i], r)
    case ReadFailed(r) => Open(log[..i], r)
    case WriteSent => forall w | 0 <= w < i && log[w].WriteSent? :: Finished(log[..i], w)
    case ReadStarted(c) =>
      c != Explicit ==> forall w | 0 <= w < i && log[w].WriteSent? :: Replied(log[..i], w)
    case WriteReplied(w, _) => w < i && log[w].WriteSent? && !Replied(log[..i], w)
    case WriteJoined(w, r) => Replied(log[..i], w) && Open(log[..i], r)
    case _ => true
  }

  predicate Sound(log: Log) {
    forall i | 0 <= i < |log| :: Step(log, i)
  }

  /** The write slot agrees with the log. */
  predicate WriteSlot(log: Log, slot: Option<Write>) {
    && (slot.Some? ==>
          && slot.value.id < |log| && log[slot.value.id].WriteSent?
          && !Finished(log, slot.value.id)
          && (slot.value.replied <==> Replied(log, slot.value.id)))
    && (forall w | 0 <= w < |log| && log[w].WriteSent? && (slot.Some? ==> w != slot.value.id) ::
          Finished(log, w) && Replied(log, w))
  }

  /** The view is that of the last reply applied. */
  predicate ViewSlot(log: Log, view: Option<View>) {
    match view
    case None => forall i | 0 <= i < |log| :: !log[i].ViewSet?
    case Some(v) =>
      exists i :: 0 <= i < |log| && log[i].ViewSet? && log[i].view == v
                  && forall j | i < j < |log| :: !log[j].ViewSet?
  }

  // ---------- what a sound log says ----------

  /** At most one write is in flight: each earlier one had finished. */
  lemma OneWriteAtATime(log: Log, v: nat, w: nat)
    requires Sound(log)
    requires v < w < |log| && log[v].WriteSent? && log[w].WriteSent?
    ensures exists f :: v < f < w && log[f] == WriteFinished(v)
  {
    assert Step(log, w);
    assert Finished(log[..w], v);
    var f :| v < f < |log[..w]| && log[..w][f] == WriteFinished(v);
    assert log[f] == WriteFinished(v);
  }

  /** A cancelled, settled or superseded read never changes the view. */
  lemma OnlyTheLatestReadApplies(log: Log, i: nat)
    requires Sound(log) && i < |log| && log[i].ViewSet?
    ensures var r := log[i].read;
            && r < i && log[r].ReadStarted?
            && forall j | r < j < i ::
                 && log[j] != ReadCancelled(r) && log[j] != ReadFailed(r)
                 && !log[j].ReadStarted? && !log[j].ViewSet?
  {
    assert Step(log, i);
    var r := log[i].read;
    assert log[..i][r] == log[r];
    forall j | r < j < i
      ensures Harmless(log[j])
    {
      assert log[..i][j] == log[j];
    }
  }

  /** Views are applied in the order their reads were started. */
  lemma ViewsFollowReadOrder(log: Log, i: nat, j: nat)
    requires Sound(log) && i < j < |log| && log[i].ViewSet? && log[j].ViewSet?
    ensures log[i].read < i < log[j].read
  {
    OnlyTheLatestReadApplies(log, i);
    OnlyTheLatestReadApplies(log, j);
    assert log[log[j].read].ReadStarted?;
  }

  /** No reply to a read started before a write was sent is shown after it. */
  lemma AppliedReadsFollowTheWrite(log: Log, w: nat, i: nat)
    requires Sound(log) && w < i < |log| && log[w].WriteSent? && log[i].ViewSet?
    ensures w < log[i].read < i && log[log[i].read].ReadStarted?
  {
    assert Step(log, i);
    var r := log[i].read;
    assert log[..i][r] == log[r] && log[..i][w] == log[w];
  }

  predicate ExplicitBetween(log: Log, from: nat, to: nat) {
    exists i :: 0 <= from < i < to <= |log| && log[i] == ReadStarted(Explicit)
  }

  /** Every view shown after a write's reply comes from a read started after that
      reply, unless an explicit refresh was started while the write was out. */
  lemma AppliedReadsFollowTheReply(log: Log, w: nat, p: nat, i: nat)
    requires Sound(log)
    requires w < p < i < |log| && log[w].WriteSent? && log[p].WriteReplied? && log[p].write == w
    requires log[i].ViewSet?
    ensures log[i].read < p ==> log[log[i].read] == ReadStarted(Explicit) && ExplicitBetween(log, w, p)
  {
    AppliedReadsFollowTheWrite(log, w, i);
    var r := log[i].read;
    if r < p {
      assert Step(log, p) && Step(log, r);
      var before, between := log[..r], log[r..p];
      assert log[..p] == before + between;
      if Replied(before, w) {
        RepliedStays(before, between, w);
      }
    }
  }

  // ---------- what the page promises ----------

  predicate FinishedBetween(log: Log, v: nat, w: nat) {
    exists f :: 0 <= v < f < w <= |log| && log[f] == WriteFinished(v)
  }

  /** A second write waits until the first has finished. */
  predicate WritesAreSingle(log: Log) {
    forall v, w | 0 <= v < w < |log| && log[v].WriteSent? && log[w].WriteSent? :: FinishedBetween(log, v, w)
  }

  /** `r` was started and neither cancelled nor settled nor superseded before `i`. */
  predicate StillLatest(log: Log, r: nat, i: nat) {
    && r < i <= |log| && log[r].ReadStarted?
    && forall j | r < j < i ::
         && log[j] != ReadCancelled(r) && log[j] != ReadFailed(r) && !log[j].ReadStarted? && !log[j].ViewSet?
  }

  predicate ViewsAreLatest(log: Log) {
    forall i | 0 <= i < |log| && log[i].ViewSet? :: StillLatest(log, log[i].read, i)
  }

  /** A view shown after a write was sent comes from a read started after that. */
  predicate ViewsFollowWrites(log: Log) {
    forall w, i | 0 <= w < i < |log| && log[w].WriteSent? && log[i].ViewSet? :: w < log[i].read
  }

  /** A view shown after a write's reply comes from a read started after that reply,
      or from an explicit refresh started while the write was out. */
  predicate ViewsFollowReplies(log: Log) {
    forall p, i | 0 <= p < i < |log| && log[p].WriteReplied? && log[i].ViewSet? && log[i].read < p ::
      log[p].write < log[i].read && log[log[i].read] == ReadStarted(Explicit)
  }

  predicate Promised(log: Log) {
    WritesAreSingle(log) && ViewsAreLatest(log) && ViewsFollowWrites(log) && ViewsFollowReplies(log)
  }

  lemma SoundIsPromised(log: Log)
    requires Sound(log)
    ensures Promised(log)
  {
    forall v, w | 0 <= v < w < |log| && log[v].WriteSent? && log[w].WriteSent?
      ensures FinishedBetween(log, v, w)
    {
      OneWriteAtATime(log, v, w);
    }
    forall i | 0 <= i < |log| && log[i].ViewSet?
      ensures StillLatest(log, log[i].read, i)
    {
      OnlyTheLatestReadApplies(log, i);
    }
    forall w, i | 0 <= w < i < |log| && log[w].WriteSent? && log[i].ViewSet?
      ensures w < log[i].read
    {
      AppliedReadsFollowTheWrite(log, w, i);
    }
    forall p, i | 0 <= p < i < |log| && log[p].WriteReplied? && log[i].ViewSet? && log[i].read < p
      ensures log[p].write < log[i].read && log[log[i].read] == ReadStarted(Explicit)
    {
      assert Step(log, p);
      AppliedReadsFollowTheWrite(log, log[p].write, i);
      AppliedReadsFollowTheReply(log, log[p].write, p, i);
    }
  }

  // ---------- extending a sound log ----------

  lemma FinishedStays(log: Log, more: Log, w: nat)
    requires Finished(log, w)
    ensures Finished(log + more, w)
  {
    var i :| w < i < |log| && log[i] == WriteFinished(w);
    assert (log + more)[i] == log[i];
  }

  lemma RepliedStays(log: Log, more: Log, w: nat)
    requires Replied(log, w)
    ensures Replied(log + more, w)
  {
    var i :| w < i < |log| && log[i].WriteReplied? && log[i].write == w;
    assert (log + more)[i] == log[i];
  }

  lemma SoundAfter(log: Log, e: Entry)
    requires Sound(log)
    requires Step(log + [e], |log|)
    ensures Sound(log + [e])
  {
    var next := log + [e];
    forall i | 0 <= i < |next|
      ensures Step(next, i)
    {
      if i < |log| {
        assert Step(log, i);
        assert next[..i] == log[..i];
      }
    }
  }

  lemma ViewStays(log: Log, view: Option<View>, e: Entry)
    requires ViewSlot(log, view) && !e.ViewSet?
    ensures ViewSlot(log + [e], view)
  {
    var next := log + [e];
    if view.Some? {
      var i :| 0 <= i < |log| && log[i].ViewSet? && log[i].view == view.value
               && forall j | i < j < |log| :: !log[j].ViewSet?;
      assert next[i].ViewSet? && next[i].view == view.value;
    }
  }

  /** An entry that neither sends, answers nor finishes a write. */
  lemma WriteStays(log: Log, slot: Option<Write>, e: Entry)
    requires WriteSlot(log, slot)
    requires !e.WriteSent? && !e.WriteReplied? && !e.WriteFinished?
    ensures WriteSlot(log + [e], slot)
  {
    var next := log + [e];
    forall w | 0 <= w < |next| && next[w].WriteSent?
      ensures Finished(next, w) <==> Finished(log, w)
      ensures Replied(next, w) <==> Replied(log, w)
    {
      if Finished(log, w) { FinishedStays(log, [e], w); }
      if Replied(log, w) { RepliedStays(log, [e], w); }
    }
  }

  lemma WriteSentSlot(log: Log)
    requires WriteSlot(log, None)
    ensures Step(log + [WriteSent], |log|)
    ensures WriteSlot(log + [WriteSent], Some(Write(|log|, false)))
  {
    var next := log + [WriteSent];
    assert next[..|log|] == log;
    forall w | 0 <= w < |log| && next[w].WriteSent?
      ensures Finished(next, w) && Replied(next, w)
    {
      assert log[w].WriteSent?;
      FinishedStays(log, [WriteSent], w);
      RepliedStays(log, [WriteSent], w);
    }
  }

  lemma WriteRepliedSlot(log: Log, w: nat, confirmed: bool)
    requires WriteSlot(log, Some(Write(w, false)))
    ensures Step(log + [WriteReplied(w, confirmed)], |log|)
    ensures WriteSlot(log + [WriteReplied(w, confirmed)], Some(Write(w, true)))
  {
    var e := WriteReplied(w, confirmed);
    var next := log + [e];
    assert next[..|log|] == log;
    assert next[|log|].WriteReplied? && next[|log|].write == w;
    forall v | 0 <= v < |next| && next[v].WriteSent? && v != w
      ensures Finished(next, v) && Replied(next, v)
    {
      assert log[v].WriteSent?;
      FinishedStays(log, [e], v);
      RepliedStays(log, [e], v);
    }
  }

  lemma WriteFinishedSlot(log: Log, w: nat)
    requires WriteSlot(log, Some(Write(w, true)))
    ensures WriteSlot(log + [WriteFinished(w)], None)
  {
    var e := WriteFinished(w);
    var next := log + [e];
    assert next[|log|] == WriteFinished(w);
    forall v | 0 <= v < |next| && next[v].WriteSent?
      ensures Finished(next, v) && Replied(next, v)
    {
      assert log[v].WriteSent?;
      RepliedStays(log, [e], v);
      if v != w {
        FinishedStays(log, [e], v);
      }
    }
  }

  // ---------- the hook ----------

  /** What may happen to a mounted hook. Replies come in any order, to pending and
      to cancelled reads alike; the read awaited after a write may settle at any
      time once the write was answered. */
  datatype Event =
    | Poll | Focus | Hide | Show | Refresh
    | Set(online: bool)
    | ReadReply(read: nat, reply: Option<View>)
    | WriteReply(confirmed: bool)
    | ReadAfterWriteSettled
    | ClientReplaced
    | Unmount

  class Control {
    var mounted: bool
    var hidden: bool
    var view: Option<View>
    var error: bool
    var busy: bool
    var checking: bool
    var refreshFailed: bool
    var pendingRead: Option<nat>
    var pendingWrite: Option<Write>
    var log: Log

    ghost predicate Valid()
      reads this
    {
      && Sound(log)
      && (pendingRead.Some? ==> mounted && Open(log, pendingRead.value))
      && WriteSlot(log, pendingWrite)
      && ViewSlot(log, view)
      && (mounted ==> (busy <==> pendingWrite.Some?))
    }

    constructor (isHidden: bool)
      ensures Valid() && mounted && view == None && pendingWrite == None
      ensures pendingRead.Some? <==> !isHidden
      ensures log == if isHidden then [] else [ReadStarted(Visible)]
    {
      mounted, hidden, view, error, busy := true, isHidden, None, false, false;
      checking, refreshFailed, pendingRead, pendingWrite, log := true, false, None, None, [];
      new;
      VisibleRead();
    }

    method Note(e: Entry)
      requires Valid() && Step(log + [e], |log|)
      requires !e.WriteSent? && !e.WriteReplied? && !e.WriteFinished? && !e.ViewSet?
      requires Harmless(e) || pendingRead.None?
      modifies this`log
      ensures Valid() && log == old(log) + [e]
    {
      SoundAfter(log, e);
      WriteStays(log, pendingWrite, e);
      ViewStays(log, view, e);
      log := log + [e];
    }

    method CancelRead()
      requires Valid()
      modifies this`pendingRead, this`log
      ensures Valid() && pendingRead == None
      ensures log == if old(pendingRead).Some? then old(log) + [ReadCancelled(old(pendingRead).value)] else old(log)
    {
      if pendingRead.Some? {
        var r := pendingRead.value;
        pendingRead := None;
        Note(ReadCancelled(r));
      }
    }

    /** Starts a read unless one is pending, and names the read to wait for. */
    method Read(cause: Cause) returns (request: Option<nat>)
      requires Valid()
      requires cause != Explicit ==> pendingWrite.Some? ==> pendingWrite.value.replied
      modifies this`pendingRead, this`checking, this`refreshFailed, this`error, this`log
      ensures Valid() && request == pendingRead
      ensures old(pendingRead).Some? || !mounted ==> pendingRead == old(pendingRead) && log == old(log)
      ensures old(pendingRead).None? && mounted ==>
                && pendingRead == Some(|old(log)|) && log == old(log) + [ReadStarted(cause)]
                && checking && !refreshFailed && !error
    {
      if !mounted || pendingRead.Some? {
        return pendingRead;
      }
      assert (log + [ReadStarted(cause)])[..|log|] == log;
      Note(ReadStarted(cause));
      pendingRead := Some(|log| - 1);
      checking, refreshFailed, error := true, false, false;
      return pendingRead;
    }

    method VisibleRead()
      requires Valid()
      modifies this`pendingRead, this`checking, this`refreshFailed, this`error, this`log
      ensures Valid()
      ensures var starts := mounted && !hidden && pendingWrite.None? && old(pendingRead).None?;
              && log == (if starts then old(log) + [ReadStarted(Visible)] else old(log))
              && pendingRead == (if starts then Some(|old(log)|) else old(pendingRead))
    {
      if !hidden && pendingWrite.None? {
        var _ := Read(Visible);
      }
    }

    method Visibility(nowHidden: bool)
      requires Valid()
      modifies this
      ensures Valid() && hidden == nowHidden && mounted == old(mounted) && old(log) <= log
      ensures view == old(view) && pendingWrite == old(pendingWrite)
      ensures nowHidden ==> pendingRead == None && checking
      ensures !nowHidden && mounted && pendingWrite.None? ==> pendingRead.Some?
    {
      hidden := nowHidden;
      if hidden {
        CancelRead();
        checking := true;
      } else {
        VisibleRead();
      }
    }

    /** The end of a read: its own reply, whatever happened in between. */
    method OnReadReply(r: nat, reply: Option<View>)
      requires Valid()
      modifies this
      ensures Valid() && mounted == old(mounted) && pendingWrite == old(pendingWrite) && hidden == old(hidden) && old(log) <= log
      ensures old(pendingRead) != Some(r) ==> view == old(view) && pendingRead == old(pendingRead)
      ensures old(pendingRead) == Some(r) ==>
                && pendingRead == None && !checking
                && view == (if reply.Some? then reply else old(view))
                && log == old(log) + [if reply.Some? then ViewSet(r, reply.value) else ReadFailed(r)]
      ensures old(pendingRead) == Some(r) ==> (if reply.Some? then !error else error && refreshFailed)
      ensures old(pendingRead) != Some(r) ==>
                checking == old(checking) && error == old(error) && refreshFailed == old(refreshFailed) && busy == old(busy)
    {
      if !mounted || pendingRead != Some(r) {
        Note(ReplyDropped);
        return;
      }
      pendingRead := None;
      var e := if reply.Some? then ViewSet(r, reply.value) else ReadFailed(r);
      assert (log + [e])[..|log|] == log;
      if reply.Some? {
        SoundAfter(log, e);
        WriteStays(log, pendingWrite, e);
        assert (log + [e])[|log|] == e;
        log, view, error := log + [e], reply, false;
      } else {
        Note(e);
        refreshFailed, error := true, true;
      }
      checking := false;
    }

    /** The write slot is the one latch: a second write, an unmounted form or an
        offline device sends nothing. */
    method SetMode(online: bool) returns (sent: bool)
      requires Valid()
      modifies this
      ensures Valid() && mounted == old(mounted) && view == old(view) && hidden == old(hidden) && old(log) <= log
      ensures sent <==> old(mounted) && old(pendingWrite).None? && online
      ensures sent ==>
                && log == old(log) + (if old(pendingRead).Some? then [ReadCancelled(old(pendingRead).value)] else [])
                          + [WriteSent]
                && pendingWrite == Some(Write(|log| - 1, false)) && pendingRead == None
      ensures !sent ==> pendingWrite == old(pendingWrite) && pendingRead == old(pendingRead) && log == old(log)
      ensures sent ==> busy
      ensures !sent && old(mounted) && old(pendingWrite).None? ==> error
    {
      if !mounted || pendingWrite.Some? {
        return false;
      }
      if !online {
        error := true;
        return false;
      }
      CancelRead();
      WriteSentSlot(log);
      SoundAfter(log, WriteSent);
      ViewStays(log, view, WriteSent);
      pendingWrite := Some(Write(|log|, false));
      log := log + [WriteSent];
      busy := true;
      return true;
    }

    method NoteReply(confirmed: bool)
      requires Valid() && pendingWrite.Some? && !pendingWrite.value.replied
      modifies this`log, this`pendingWrite
      ensures Valid() && log == old(log) + [WriteReplied(old(pendingWrite).value.id, confirmed)]
      ensures pendingWrite == Some(Write(old(pendingWrite).value.id, true))
    {
      var w := pendingWrite.value.id;
      var e := WriteReplied(w, confirmed);
      WriteRepliedSlot(log, w, confirmed);
      SoundAfter(log, e);
      ViewStays(log, view, e);
      log, pendingWrite := log + [e], Some(Write(w, true));
    }

    /** The reply to the write. A confirmed write waits for a read: one already
        pending is joined, so the read it waits for was started before the reply
        exactly when a read was pending. */
    method OnWriteReply(confirmed: bool) returns (awaited: Option<nat>)
      requires Valid() && pendingWrite.Some? && !pendingWrite.value.replied
      modifies this
      ensures Valid() && mounted == old(mounted) && view == old(view) && hidden == old(hidden) && old(log) <= log
      ensures var w := old(pendingWrite).value.id;
              |log| > |old(log)| && log[..|old(log)| + 1] == old(log) + [WriteReplied(w, confirmed)]
      ensures confirmed ==> awaited == pendingRead && (mounted ==> awaited.Some?)
      ensures confirmed && mounted ==>
                && log[|log| - 1] == WriteJoined(old(pendingWrite).value.id, awaited.value)
                && (awaited.value < |old(log)| <==> old(pendingRead).Some?)
      ensures pendingWrite == if confirmed && mounted then Some(Write(old(pendingWrite).value.id, true)) else None
      ensures !confirmed && mounted ==> error && !checking
    {
      var w := pendingWrite.value.id;
      NoteReply(confirmed);
      awaited := None;
      if confirmed {
        awaited := Read(AfterWrite);
        if awaited.Some? {
          assert (log + [WriteJoined(w, awaited.value)])[..|log|] == log;
          Note(WriteJoined(w, awaited.value));
          return;
        }
      } else if mounted {
        checking, error := false, true;
      }
      FinishWrite();
    }

    method FinishWrite()
      requires Sound(log) && ViewSlot(log, view)
      requires pendingRead.Some? ==> mounted && Open(log, pendingRead.value)
      requires pendingWrite.Some? && pendingWrite.value.replied && WriteSlot(log, pendingWrite)
      modifies this`pendingWrite, this`busy, this`log
      ensures Valid() && pendingWrite == None
      ensures log == old(log) + [WriteFinished(old(pendingWrite).value.id)]
    {
      var e := WriteFinished(pendingWrite.value.id);
      WriteFinishedSlot(log, pendingWrite.value.id);
      SoundAfter(log, e);
      ViewStays(log, view, e);
      log, pendingWrite := log + [e], None;
      if mounted {
        busy := false;
      }
    }

    method Cleanup()
      requires Valid()
      modifies this`mounted, this`pendingRead, this`log
      ensures Valid() && !mounted && pendingRead == None && old(log) <= log
    {
      CancelRead();
      mounted := false;
    }

    /** Another client re-runs the effect: its cleanup and its setup, with nothing
        between them. A write that is out keeps its slot. */
    method ReplaceClient()
      requires Valid()
      modifies this
      ensures Valid() && mounted == old(mounted) && old(log) <= log
      ensures view == old(view) && pendingWrite == old(pendingWrite) && hidden == old(hidden)
      ensures mounted && old(pendingRead).Some? ==> ReadCancelled(old(pendingRead).value) in log
      ensures mounted ==> (pendingRead.Some? <==> !hidden && pendingWrite.None?)
    {
      if mounted {
        CancelRead();
        VisibleRead();
      }
    }

    /** One event, in any state: replies nobody waits for do nothing. */
    method Handle(e: Event)
      requires Valid()
      modifies this
      ensures Valid() && old(log) <= log
      ensures old(view).Some? ==> view.Some?
      ensures view != old(view) ==> e.ReadReply? && old(pendingRead) == Some(e.read) && view == e.reply
      ensures mounted <==> old(mounted) && !e.Unmount?
      ensures e.Hide? || e.Unmount? ==> pendingRead == None
      ensures mounted && e.Refresh? ==> pendingRead.Some?
      ensures mounted && (e.Poll? || e.Focus? || e.Show?) && !hidden && pendingWrite.None? ==> pendingRead.Some?
      ensures e.Set? ==> (old(mounted) && old(pendingWrite).None? && e.online <==>
                            pendingWrite != old(pendingWrite))
      ensures e.WriteReply? && old(pendingWrite).Some? ==>
                pendingWrite.None? || pendingWrite == Some(Write(old(pendingWrite).value.id, true))
      // a reply to the pending read is shown, one that fails is told, and others do nothing
      ensures e.ReadReply? && old(pendingRead) == Some(e.read) ==>
                && pendingRead == None && !checking
                && (if e.reply.Some? then view == e.reply && !error else view == old(view) && error && refreshFailed)
                && log == old(log) + [if e.reply.Some? then ViewSet(e.read, e.reply.value) else ReadFailed(e.read)]
      ensures e.ReadReply? && old(pendingRead) != Some(e.read) ==>
                view == old(view) && pendingRead == old(pendingRead) && error == old(error)
      // the reply to the write is recorded as it came; a confirmed one is followed by a read
      ensures e.WriteReply? && old(pendingWrite).Some? && !old(pendingWrite).value.replied ==>
                && |log| > |old(log)|
                && log[|old(log)|] == WriteReplied(old(pendingWrite).value.id, e.confirmed)
                && (mounted && e.confirmed ==> pendingRead.Some? && pendingWrite.Some?)
                && (mounted && !e.confirmed ==> error && !checking && pendingWrite.None? && !busy)
      ensures e.Set? && old(mounted) && old(pendingWrite).None? ==>
                if e.online then |log| > 0 && log[|log| - 1] == WriteSent && busy && pendingRead.None?
                else error && log == old(log)
      ensures e.ReadAfterWriteSettled? && old(pendingWrite).Some? && old(pendingWrite).value.replied ==> pendingWrite.None?
    {
      match e
      case Poll => if mounted { VisibleRead(); }
      case Focus => if mounted { VisibleRead(); }
      case Hide => if mounted { Visibility(true); } else { hidden := true; }
      case Show => if mounted { Visibility(false); } else { hidden := false; }
      case Refresh => var _ := Read(Explicit);
      case Set(online) => var _ := SetMode(online);
      case ReadReply(r, reply) => OnReadReply(r, reply);
      case WriteReply(confirmed) =>
        if pendingWrite.Some? && !pendingWrite.value.replied {
          var _ := OnWriteReply(confirmed);
        }
      case ReadAfterWriteSettled =>
        if pendingWrite.Some? && pendingWrite.value.replied {
          FinishWrite();
        }
      case ClientReplaced => ReplaceClient();
      case Unmount => Cleanup();
    }

    /** Any sequence of events: what the page promises holds of all that happened. */
    method Run(events: seq<Event>)
      requires Valid()
      modifies this
      ensures Valid() && old(log) <= log && Promised(log)
      ensures old(view).Some? ==> view.Some?
    {
      for i := 0 to |events|
        invariant Valid() && old(log) <= log
        invariant old(view).Some? ==> view.Some?
      {
        Handle(events[i]);
      }
      SoundIsPromised(log);
    }
  }

  // ---------- the read after a write may be older than the reply ----------

  /** A run of the hook. A refresh asked for while the write is out is joined, so
      the view the control shows once the write was confirmed comes from a read older
      than the reply. (The page's own button is disabled while a write is out; the
      hook's `refresh` is not.) */
  method RefreshDuringWrite(stale: View) returns (c: Control, w: nat, r: nat, p: nat)
    ensures fresh(c) && c.Valid() && c.mounted && c.view == Some(stale)
    ensures w < r < p < |c.log|
    ensures c.log[w] == WriteSent && c.log[r] == ReadStarted(Explicit) && c.log[p] == WriteReplied(w, true)
    ensures c.log[|c.log| - 1] == ViewSet(r, stale)
  {
    c := new Control(true);
    var _ := c.SetMode(true);
    assert c.log == [WriteSent];
    var _ := c.Read(Explicit);
    assert c.log == [WriteSent, ReadStarted(Explicit)];
    var _ := c.OnWriteReply(true);
    ghost var before := c.log;
    assert before[..3] == [WriteSent, ReadStarted(Explicit), WriteReplied(0, true)];
    c.OnReadReply(1, Some(stale));
    w, r, p := 0, 1, 2;
    assert c.log[..3] == before[..3];
    assert c.log[0] == before[..3][0] && c.log[1] == before[..3][1] && c.log[2] == before[..3][2];
  }
}

/** The notes page as it is written: maps and flags updated in place by handlers, and the list of cards
    on screen.  Every handler is one turn of the model in NotesFeed, where the guarantees are proved. */
module NotesPage {
  import opened NotesStore
  import opened F = NotesFeed
  import opened Sequences
  import opened Wrappers

  function Descending(s: set<nat>): seq<nat> {
    if s == {} then [] else [Newest(s)] + Descending(s - {Newest(s)})
  }

  lemma {:induction false} DescendingIsSorted(s: set<nat>)
    ensures Falling(Descending(s)) && forall id :: id in Descending(s) <==> id in s
  {
    if s != {} {
      var m := Newest(s);
      DescendingIsSorted(s - {m});
      FallingCons(m, Descending(s - {m}), s);
    }
  }

  lemma FallingCons(m: nat, p: seq<nat>, s: set<nat>)
    requires m in s && Falling(p) && (forall id :: id in p <==> id in s - {m}) && forall x | x in s :: x <= m
    ensures Falling([m] + p) && forall id :: id in [m] + p <==> id in s
  {
    assert forall i | 0 <= i < |p| :: p[i] in p;
  }

  /** Taking a card away leaves the others in order. */
  lemma {:induction false} WithoutKeepsOrder(s: set<nat>, id: nat)
    ensures Without(Descending(s), id) == Descending(s - {id})
  {
    if id !in s {
      DescendingIsSorted(s);
      WithoutIsRest(Descending(s), id);
      assert s - {id} == s;
    } else if Newest(s) == id {
      DescendingIsSorted(s - {id});
      WithoutIsRest(Descending(s - {id}), id);
      assert Descending(s)[1..] == Descending(s - {id});
    } else {
      WithoutKeepsOrder(s - {Newest(s)}, id);
      assert Newest(s - {id}) == Newest(s) by {
        assert Newest(s) in s - {id} && Newest(s - {id}) in s;
      }
      assert s - {id} - {Newest(s)} == s - {Newest(s)} - {id};
      assert Descending(s)[1..] == Descending(s - {Newest(s)});
    }
  }

  // The list is some cards still to be moved, followed by the first i of ids; all those have a node.
  ghost predicate Moved(feed: seq<nat>, rest: seq<nat>, nodes: set<nat>, ids: seq<nat>, i: nat) {
    && i <= |ids| && feed == rest + ids[..i]
    && (forall x | x in rest :: x in ids && x !in ids[..i])
    && (forall x | x in nodes :: x in ids) && (forall x | x in ids[..i] :: x in nodes)
  }

  lemma MoveStart(was: set<nat>, keys: set<nat>)
    requires was <= keys
    ensures Moved(Descending(was), Descending(was), was, Descending(keys), 0)
  {
    DescendingIsSorted(was);
    DescendingIsSorted(keys);
  }

  // The node taken out of the list goes to its end.
  lemma MoveLast(rest: seq<nat>, ids: seq<nat>, i: nat)
    requires i < |ids| && ids[i] !in ids[..i]
    ensures Without(rest + ids[..i], ids[i]) + [ids[i]] == Without(rest, ids[i]) + ids[..i + 1]
  {
    hide Without;
    WithoutConcat(rest, ids[..i], ids[i]);
    WithoutIsRest(ids[..i], ids[i]);
    assert ids[..i + 1] == ids[..i] + [ids[i]];
  }

  lemma FallingIsDistinct(p: seq<nat>, i: nat)
    requires Falling(p) && i < |p|
    ensures p[i] !in p[..i]
  {
  }

  lemma MoveOne(feed: seq<nat>, rest: seq<nat>, nodes: set<nat>, keys: set<nat>, i: nat)
    requires i < |Descending(keys)| && Moved(feed, rest, nodes, Descending(keys), i)
    ensures var id := Descending(keys)[i];
            Moved(Without(feed, id) + [id], Without(rest, id), nodes + {id}, Descending(keys), i + 1)
  {
    DescendingIsSorted(keys);
    var ids := Descending(keys);
    hide Descending, Falling, Without;
    FallingIsDistinct(ids, i);
    MoveLast(rest, ids, i);
    WithoutIsRest(rest, ids[i]);
    assert forall x :: x in ids[..i + 1] <==> x in ids[..i] || x == ids[i] by {
      assert ids[..i + 1] == ids[..i] + [ids[i]];
    }
  }

  lemma AllMoved(feed: seq<nat>, rest: seq<nat>, nodes: set<nat>, keys: set<nat>)
    requires Moved(feed, rest, nodes, Descending(keys), |Descending(keys)|)
    ensures feed == Descending(keys) && nodes == keys
  {
    DescendingIsSorted(keys);
    hide Descending;
    var ids := Descending(keys);
    assert ids[..|ids|] == ids;
    assert Members(rest) == {};
    NoMembers(rest);
  }

  // The shown notes are those there were and the waiting ones not left; shown ones win.
  ghost predicate ShownBut(shown: map<nat, Note>, was: map<nat, Note>, waiting: map<nat, Note>, left: set<nat>) {
    && left <= waiting.Keys && shown.Keys == was.Keys + (waiting.Keys - left)
    && forall id | id in shown :: shown[id] == if id in was then was[id] else waiting[id]
  }

  lemma ShowOne(shown: map<nat, Note>, was: map<nat, Note>, waiting: map<nat, Note>, left: set<nat>, id: nat)
    requires ShownBut(shown, was, waiting, left) && id in left
    ensures ShownBut(if id in shown then shown else shown[id := waiting[id]], was, waiting, left - {id})
  {
  }

  lemma AllShown(shown: map<nat, Note>, was: map<nat, Note>, waiting: map<nat, Note>)
    requires ShownBut(shown, was, waiting, {})
    ensures shown == waiting + was && was.Keys <= shown.Keys
  {
  }

  class NotesPage {
    const me: string
    var noteMap: map<nat, Note>
    var nodeMap: set<nat>
    var pendingNew: map<nat, Note>
    var feedEl: seq<nat>
    var oldestLoadedId: nat
    var reachedEnd: bool
    var olderOffered: bool
    var pollTimer: Option<nat>
    var backoffMs: nat
    var polling: bool
    var initialLoaded: bool
    var selectedAuthors: seq<string>
    var feedGen: nat
    var visible: bool
    var leaving: bool
    var loadingOlder: bool
    // the requests in the air
    var polls: seq<PollRequest>
    var older: seq<OlderRequest>

    ghost function View(): Page
      reads this
    {
      Page(Held(noteMap, pendingNew), oldestLoadedId, reachedEnd, olderOffered, initialLoaded, pollTimer, backoffMs,
           polling, polls, loadingOlder, older, visible, selectedAuthors, feedGen, leaving)
    }

    /** The cards on screen are the shown notes, newest first, each with its node. */
    ghost predicate InOrder()
      reads this
    {
      feedEl == Descending(noteMap.Keys) && nodeMap == noteMap.Keys
    }

    constructor (user: string, nowVisible: bool)
      ensures View() == Loaded(nowVisible) && InOrder() && me == user
    {
      me := user;
      noteMap, nodeMap, pendingNew, feedEl := map[], {}, map[], [];
      oldestLoadedId, reachedEnd, olderOffered, pollTimer, backoffMs := 0, false, false, None, POLL_MS;
      polling, initialLoaded, selectedAuthors, feedGen := false, false, [], 0;
      visible, leaving, loadingOlder, polls, older := nowVisible, false, false, [], [];
    }

    /** Boot assigns the filter it loaded, as it is. */
    method AssignSavedFilter(authors: seq<string>)
      modifies this`selectedAuthors
      ensures View() == F.Step(old(View()), SavedFilter(authors), me)
    {
      selectedAuthors := authors;
    }

    /** appendChild moves a card that is already on screen. */
    method SyncDOM(ghost was: set<nat>)
      requires nodeMap == was && was <= noteMap.Keys && feedEl == Descending(was)
      modifies this`nodeMap, this`feedEl
      ensures InOrder()
    {
      MoveStart(was, noteMap.Keys);
      hide Descending, Without, Moved;
      var ids := Descending(noteMap.Keys);
      ghost var rest := feedEl;
      for i := 0 to |ids|
        invariant Moved(feedEl, rest, nodeMap, ids, i)
      {
        MoveOne(feedEl, rest, nodeMap, noteMap.Keys, i);
        rest := Without(rest, ids[i]);
        nodeMap := nodeMap + {ids[i]};
        feedEl := Without(feedEl, ids[i]) + [ids[i]];
      }
      AllMoved(feedEl, rest, nodeMap, noteMap.Keys);
    }

    method InsertNote(n: Note)
      requires InOrder()
      modifies this`noteMap, this`nodeMap, this`feedEl
      ensures InOrder()
      ensures noteMap == if n.id in old(noteMap) then old(noteMap) else old(noteMap)[n.id := n]
    {
      if n.id in noteMap {
        return;
      }
      ghost var was := noteMap.Keys;
      noteMap := noteMap[n.id := n];
      SyncDOM(was);
    }

    method RemoveNote(id: nat)
      requires InOrder()
      modifies this`noteMap, this`pendingNew, this`nodeMap, this`feedEl
      ensures InOrder() && noteMap == old(noteMap) - {id} && pendingNew == old(pendingNew) - {id}
    {
      WithoutKeepsOrder(noteMap.Keys, id);
      noteMap := noteMap - {id};
      pendingNew := pendingNew - {id};
      feedEl := Without(feedEl, id);
      nodeMap := nodeMap - {id};
    }

    method FindDeleted(fetched: seq<Note>) returns (toRemove: seq<nat>)
      ensures forall id :: id in toRemove <==> id in noteMap && InWindow(id, fetched) && id !in Ids(fetched)
    {
      toRemove := [];
      var left := noteMap.Keys;
      while left != {}
        invariant left <= noteMap.Keys
        invariant forall id :: id in toRemove <==>
                    id in noteMap && id !in left && InWindow(id, fetched) && id !in Ids(fetched)
        decreases |left|
      {
        var id :| id in left;
        left := left - {id};
        if InWindow(id, fetched) && id !in Ids(fetched) {
          toRemove := toRemove + [id];
        }
      }
    }

    method DropDeferred(fetched: seq<Note>)
      modifies this`pendingNew
      ensures pendingNew == Kept(old(pendingNew), fetched)
    {
      ghost var was := pendingNew;
      var left := pendingNew.Keys;
      while left != {}
        invariant left <= pendingNew.Keys <= was.Keys
        invariant forall id | id in pendingNew :: pendingNew[id] == was[id]
        invariant forall id | id in was && id !in left ::
                    (id in pendingNew <==> (InWindow(id, fetched) ==> id in Ids(fetched)))
        decreases |left|
      {
        var id :| id in left;
        left := left - {id};
        if InWindow(id, fetched) && id !in Ids(fetched) {
          pendingNew := pendingNew - {id};
        }
      }
    }

    method RemoveNotes(toRemove: seq<nat>)
      requires InOrder()
      modifies this`noteMap, this`pendingNew, this`nodeMap, this`feedEl
      ensures InOrder()
      ensures noteMap == old(noteMap) - Members(toRemove)
      ensures pendingNew == old(pendingNew) - Members(toRemove)
    {
      hide Descending;
      for i := 0 to |toRemove|
        invariant InOrder()
        invariant noteMap == old(noteMap) - Members(toRemove[..i])
        invariant pendingNew == old(pendingNew) - Members(toRemove[..i])
      {
        RemoveNote(toRemove[i]);
        assert toRemove[..i + 1] == toRemove[..i] + [toRemove[i]];
      }
      assert toRemove[..|toRemove|] == toRemove;
    }

    /** Drops what the window shows to be deleted. */
    method DropDeleted(fetched: seq<Note>)
      requires InOrder()
      modifies this`noteMap, this`pendingNew, this`nodeMap, this`feedEl
      ensures InOrder()
      ensures noteMap == Kept(old(noteMap), fetched) && pendingNew == Kept(old(pendingNew), fetched)
    {
      hide Descending, Ids;
      var toRemove := FindDeleted(fetched);
      DropDeferred(fetched);
      RemoveNotes(toRemove);
      assert noteMap == Kept(old(noteMap), fetched);
      assert pendingNew == Kept(old(pendingNew), fetched);
    }

    method PollOnce()
      modifies this`polling, this`polls
      ensures polling
      ensures polls == if old(polling) then old(polls) else old(polls) + [PollRequest(feedGen, selectedAuthors)]
    {
      if polling {
        return;
      }
      polling := true;
      polls := polls + [PollRequest(feedGen, selectedAuthors)];
    }

    method ScheduleNextPoll()
      modifies this`pollTimer
      ensures pollTimer == if visible then Some(backoffMs) else None
    {
      pollTimer := None;
      if !visible {
        return;
      }
      pollTimer := Some(backoffMs);
    }

    // The finally block of a poll.
    method FinishPoll(i: nat)
      requires i < |polls|
      modifies this`polling, this`polls, this`pollTimer
      ensures View() == Finish(old(View()), i)
    {
      var gen := polls[i].gen;
      polls := polls[..i] + polls[i + 1..];
      polling := false;
      if gen != feedGen {
        PollOnce();
      } else {
        ScheduleNextPoll();
      }
    }

    /** Adds the answered notes the page does not hold yet. */
    method AddNew(fetched: seq<Note>, scrolled: bool)
      requires InOrder()
      modifies this`noteMap, this`pendingNew, this`nodeMap, this`feedEl
      ensures InOrder()
      ensures Held(noteMap, pendingNew) ==
              Merge(old(Held(noteMap, pendingNew)), fetched, scrolled && initialLoaded, me)
    {
      hide Descending;
      for k := 0 to |fetched|
        invariant InOrder()
        invariant Held(noteMap, pendingNew) ==
                  Merge(old(Held(noteMap, pendingNew)), fetched[..k], scrolled && initialLoaded, me)
      {
        var n := fetched[k];
        assert fetched[..k + 1][..k] == fetched[..k];
        if n.id !in noteMap && n.id !in pendingNew {
          if n.user == me || !scrolled || !initialLoaded {
            InsertNote(n);
          } else {
            pendingNew := pendingNew[n.id := n];
          }
        }
      }
      assert fetched[..|fetched|] == fetched;
    }

    /** A current answer is applied. */
    method Apply(fetched: seq<Note>, scrolled: bool)
      requires InOrder()
      modifies this`backoffMs, this`noteMap, this`pendingNew, this`nodeMap, this`feedEl, this`oldestLoadedId,
               this`olderOffered, this`initialLoaded
      ensures InOrder() && backoffMs == POLL_MS && initialLoaded
      ensures Held(noteMap, pendingNew) ==
              Reconcile(old(Held(noteMap, pendingNew)), fetched, scrolled && old(initialLoaded), me)
      ensures oldestLoadedId == if old(oldestLoadedId) == 0 && fetched != [] then fetched[|fetched| - 1].id
                                else old(oldestLoadedId)
      ensures olderOffered == (old(olderOffered) || (|fetched| >= PAGE && !reachedEnd))
    {
      hide Descending, Merge, Kept;
      backoffMs := POLL_MS;
      DropDeleted(fetched);
      AddNew(fetched, scrolled);
      if oldestLoadedId == 0 && |fetched| > 0 {
        oldestLoadedId := fetched[|fetched| - 1].id;
      }
      if |fetched| >= PAGE && !reachedEnd {
        olderOffered := true;
      }
      initialLoaded := true;
    }

    method PollAnswered(i: nat, fetched: seq<Note>, scrolled: bool)
      requires InOrder() && i < |polls|
      modifies this
      ensures InOrder() && View() == OnAnswer(old(View()), i, fetched, scrolled, me)
    {
      hide Descending, Reconcile, Finish;
      if polls[i].gen == feedGen {
        Apply(fetched, scrolled);
        assert View() == LandAnswer(old(View()), fetched, scrolled, me);
      }
      FinishPoll(i);
    }

    method PollFailed(i: nat, unauthorized: bool)
      requires InOrder() && i < |polls|
      modifies this
      ensures InOrder() && View() == OnFailure(old(View()), i, unauthorized)
    {
      if polls[i].gen == feedGen {
        if unauthorized {
          leaving := true;
        } else {
          backoffMs := if backoffMs * 2 > MAX_BACKOFF_MS then MAX_BACKOFF_MS else backoffMs * 2;
        }
      }
      FinishPoll(i);
    }

    method TimerFires()
      requires InOrder() && pollTimer.Some?
      modifies this
      ensures InOrder() && View() == F.PollOnce(old(View()).(timer := None))
    {
      pollTimer := None;
      PollOnce();
    }

    method VisibilityChanged(nowVisible: bool)
      requires InOrder()
      modifies this
      ensures InOrder() && View() == OnVisibility(old(View()), nowVisible)
    {
      visible := nowVisible;
      if nowVisible {
        backoffMs := POLL_MS;
        PollOnce();
      } else {
        pollTimer := None;
      }
    }

    method ClearCards()
      modifies this`noteMap, this`nodeMap, this`pendingNew, this`feedEl
      ensures InOrder() && noteMap == map[] && pendingNew == map[]
    {
      noteMap := map[];
      nodeMap := {};
      pendingNew := map[];
      feedEl := [];
    }

    method ResetCursor()
      modifies this`oldestLoadedId, this`reachedEnd, this`olderOffered, this`initialLoaded
      ensures oldestLoadedId == 0 && !reachedEnd && !olderOffered && !initialLoaded
    {
      oldestLoadedId := 0;
      reachedEnd := false;
      olderOffered := false;
      initialLoaded := false;
    }

    method ResetFeed()
      modifies this`feedGen, this`noteMap, this`nodeMap, this`pendingNew, this`feedEl, this`oldestLoadedId,
               this`reachedEnd, this`olderOffered, this`initialLoaded, this`pollTimer, this`backoffMs,
               this`polling, this`polls
      ensures InOrder() && noteMap == map[] && pendingNew == map[] && feedGen == old(feedGen) + 1
      ensures oldestLoadedId == 0 && !reachedEnd && !olderOffered && !initialLoaded
      ensures pollTimer == None && backoffMs == POLL_MS && polling
      ensures polls == if old(polling) then old(polls) else old(polls) + [PollRequest(feedGen, selectedAuthors)]
    {
      feedGen := feedGen + 1;
      ClearCards();
      ResetCursor();
      pollTimer := None;
      backoffMs := POLL_MS;
      PollOnce();
    }

    method ApplySelection(authors: seq<string>)
      requires InOrder()
      modifies this
      ensures InOrder() && View() == F.ApplySelection(old(View()), authors)
    {
      var changed := authors != selectedAuthors;
      selectedAuthors := authors;
      if changed {
        ResetFeed();
      }
    }

    method ClickOlder()
      requires InOrder() && !loadingOlder && olderOffered
      modifies this
      ensures InOrder() && View() == F.ClickOlder(old(View()))
    {
      loadingOlder := true;
      older := older + [OlderRequest(feedGen, oldestLoadedId, selectedAuthors)];
    }

    /** A current load-older page is added. */
    method ApplyOlder(notes: seq<Note>)
      requires InOrder()
      modifies this`noteMap, this`nodeMap, this`feedEl, this`oldestLoadedId, this`reachedEnd, this`olderOffered
      ensures InOrder() && noteMap == AddMissing(old(noteMap), notes)
      ensures oldestLoadedId == if notes != [] then notes[|notes| - 1].id else old(oldestLoadedId)
      ensures reachedEnd == (old(reachedEnd) || |notes| < PAGE)
      ensures olderOffered == (old(olderOffered) && |notes| >= PAGE)
    {
      hide Descending;
      for k := 0 to |notes|
        modifies this`noteMap
        invariant noteMap == AddMissing(old(noteMap), notes[..k])
        invariant old(noteMap).Keys <= noteMap.Keys && (k == 0 ==> noteMap == old(noteMap))
      {
        assert notes[..k + 1][..k] == notes[..k];
        if notes[k].id !in noteMap {
          noteMap := noteMap[notes[k].id := notes[k]];
        }
      }
      assert notes[..|notes|] == notes;
      if |notes| > 0 {
        oldestLoadedId := notes[|notes| - 1].id;
        SyncDOM(old(noteMap).Keys);
      }
      if |notes| < PAGE {
        reachedEnd := true;
        olderOffered := false;
      }
    }

    method OlderAnswered(j: nat, notes: seq<Note>)
      requires InOrder() && j < |older|
      modifies this
      ensures InOrder() && View() == OnOlder(old(View()), j, notes)
    {
      hide Descending, AddMissing;
      if older[j].gen == feedGen {
        ApplyOlder(notes);
      }
      loadingOlder := false;
      older := older[..j] + older[j + 1..];
    }

    method Posted(n: Note)
      requires InOrder()
      modifies this
      ensures InOrder() && View() == OnPosted(old(View()), n)
    {
      InsertNote(n);
      if oldestLoadedId == 0 {
        oldestLoadedId := n.id;
      }
    }

    method Deleted(id: nat)
      requires InOrder()
      modifies this
      ensures InOrder() && View() == OnDeleted(old(View()), id)
    {
      RemoveNote(id);
    }

    method ShowPending()
      requires InOrder()
      modifies this`noteMap, this`nodeMap, this`feedEl, this`pendingNew
      ensures InOrder() && Held(noteMap, pendingNew) == ShowWaiting(old(Held(noteMap, pendingNew)))
    {
      hide Descending;
      ghost var was := noteMap.Keys;
      TakeWaiting();
      pendingNew := map[];
      SyncDOM(was);
    }

    method TakeWaiting()
      modifies this`noteMap
      ensures noteMap == pendingNew + old(noteMap) && old(noteMap).Keys <= noteMap.Keys
    {
      ghost var was := noteMap;
      var left := pendingNew.Keys;
      assert ShownBut(noteMap, was, pendingNew, left);
      hide ShownBut;
      while left != {}
        modifies this`noteMap
        invariant left <= pendingNew.Keys && ShownBut(noteMap, was, pendingNew, left)
        decreases |left|
      {
        var id :| id in left;
        ShowOne(noteMap, was, pendingNew, left, id);
        left := left - {id};
        if id !in noteMap {
          noteMap := noteMap[id := pendingNew[id]];
        }
      }
      AllShown(noteMap, was, pendingNew);
    }
  }
}

/** ListNotes of internal/store/store.go and the "load older" chain of frontend/js/page-notes.js on top
    of it.  A table maps note ids to their authors; ids are handed out in increasing order. */
module NotesStore {

  const PAGE := 50

  // next is the id the next note will get: ids are never reused, even after a deletion.
  datatype Db = Db(notes: map<nat, string>, next: nat)

  ghost predicate Sane(db: Db) {
    forall id | id in db.notes :: 1 <= id < db.next
  }

  /** Any number of creations and deletions happened in between. */
  ghost predicate Evolves(a: Db, b: Db) {
    a.next <= b.next &&
    forall id | id in b.notes :: if id in a.notes then b.notes[id] == a.notes[id] else id >= a.next
  }

  function Matching(notes: map<nat, string>, before: nat, authors: seq<string>): set<nat> {
    set id | id in notes && (before == 0 || id < before) && (authors == [] || notes[id] in authors)
  }

  lemma HasNewest(s: set<nat>)
    requires s != {}
    ensures exists m :: m in s && forall x | x in s :: x <= m
  {
    var y :| y in s;
    if s - {y} != {} {
      HasNewest(s - {y});
      var m :| m in s - {y} && forall x | x in s - {y} :: x <= m;
      var n := if y < m then m else y;
      assert n in s && forall x | x in s :: x <= n by {
        forall x | x in s ensures x <= n { if x != y { assert x in s - {y}; } }
      }
    } else {
      assert s == {y};
    }
  }

  function Newest(s: set<nat>): (m: nat)
    requires s != {}
    ensures m in s && forall x | x in s :: x <= m
  {
    HasNewest(s);
    var m :| m in s && forall x | x in s :: x <= m;
    m
  }

  /** ORDER BY id DESC LIMIT limit. */
  function Top(s: set<nat>, limit: nat): seq<nat> {
    if s == {} || limit == 0 then []
    else [Newest(s)] + Top(s - {Newest(s)}, limit - 1)
  }

  function ListNotes(db: Db, before: nat, limit: int, authors: seq<string>): seq<nat> {
    Top(Matching(db.notes, before, authors), if limit <= 0 || limit > 200 then 50 else limit)
  }

  ghost predicate Falling(p: seq<nat>) {
    forall i, j | 0 <= i < j < |p| :: p[i] > p[j]
  }

  /** p holds the newest members of s, newest first; all of them if it is short. */
  ghost predicate IsPage(p: seq<nat>, s: set<nat>, limit: nat) {
    && Falling(p) && |p| <= limit
    && (forall id | id in p :: id in s)
    && (forall id, q | id in s && id !in p && q in p :: id < q)
    && (|p| < limit ==> forall id | id in s :: id in p)
  }

  lemma {:induction false} TopIsPage(s: set<nat>, limit: nat)
    ensures IsPage(Top(s, limit), s, limit)
  {
    if s != {} && limit > 0 {
      TopIsPage(s - {Newest(s)}, limit - 1);
      var p := Top(s - {Newest(s)}, limit - 1);
      assert forall i | 0 <= i < |p| :: p[i] in p && p[i] in s - {Newest(s)};
      forall id, q | id in s && id !in [Newest(s)] + p && q in [Newest(s)] + p ensures id < q {
        assert id in s - {Newest(s)} && id !in p;
      }
    }
  }

  /** The statement lists the newest matching notes below the cursor, fifty of them unless between 1 and 200 were
      asked for. */
  lemma ListIsPage(db: Db, before: nat, limit: int, authors: seq<string>)
    ensures IsPage(ListNotes(db, before, limit, authors), Matching(db.notes, before, authors),
                   if 1 <= limit <= 200 then limit else 50)
    ensures forall id | id in ListNotes(db, before, limit, authors) ::
              id in db.notes && (before > 0 ==> id < before) && (authors != [] ==> db.notes[id] in authors)
  {
    TopIsPage(Matching(db.notes, before, authors), if 1 <= limit <= 200 then limit else 50);
  }

  // ---------------------------------------------------------------------------
  // The chain of "load older" pages
  // ---------------------------------------------------------------------------

  /** The pages one reader gets by asking again and again from the last id received, when the i-th
      request meets table dbs[i]; a short page ends the chain. */
  function Pages(dbs: seq<Db>, cursor: nat, authors: seq<string>): seq<seq<nat>> {
    if dbs == [] then []
    else
      var p := ListNotes(dbs[0], cursor, PAGE, authors);
      if |p| < PAGE then [p] else [p] + Pages(dbs[1..], p[|p| - 1], authors)
  }

  function Flat(pages: seq<seq<nat>>): seq<nat> {
    if pages == [] then [] else pages[0] + Flat(pages[1..])
  }

  predicate Ended(pages: seq<seq<nat>>) {
    pages != [] && |pages[|pages| - 1]| < PAGE
  }

  ghost predicate Below(p: seq<nat>, cursor: nat) {
    forall id | id in p :: id < cursor
  }

  lemma PageBelow(db: Db, cursor: nat, authors: seq<string>)
    requires cursor > 0
    ensures IsPage(ListNotes(db, cursor, PAGE, authors), Matching(db.notes, cursor, authors), PAGE)
    ensures Below(ListNotes(db, cursor, PAGE, authors), cursor)
    ensures |ListNotes(db, cursor, PAGE, authors)| == PAGE ==> 0 < ListNotes(db, cursor, PAGE, authors)[0] < cursor
  {
    TopIsPage(Matching(db.notes, cursor, authors), PAGE);
    var p := ListNotes(db, cursor, PAGE, authors);
    if |p| == PAGE { assert p[0] > p[1] && p[0] in p; }
  }

  lemma FallingConcat(a: seq<nat>, b: seq<nat>)
    requires Falling(a) && Falling(b) && a != [] && Below(b, a[|a| - 1])
    ensures Falling(a + b)
  {
    forall i, j | 0 <= i < j < |a + b| ensures (a + b)[i] > (a + b)[j] {
      if i < |a| <= j { assert b[j - |a|] in b && a[i] >= a[|a| - 1]; }
    }
  }

  lemma {:induction false} LastIsLeast(p: seq<nat>, k: nat)
    requires Falling(p) && k < |p|
    ensures p[k] >= p[|p| - 1] + (|p| - 1 - k)
    decreases |p| - k
  {
    if k < |p| - 1 { LastIsLeast(p, k + 1); }
  }

  /** Whatever is created or deleted between requests, the pages put together fall strictly (so nothing
      repeats) and stay below the first cursor. */
  lemma {:induction false} ChainFalls(dbs: seq<Db>, cursor: nat, authors: seq<string>)
    requires cursor > 0 && forall i | 0 <= i < |dbs| :: Sane(dbs[i])
    ensures Falling(Flat(Pages(dbs, cursor, authors))) && Below(Flat(Pages(dbs, cursor, authors)), cursor)
    decreases |dbs|
  {
    if dbs != [] {
      var p := ListNotes(dbs[0], cursor, PAGE, authors);
      PageBelow(dbs[0], cursor, authors);
      if |p| < PAGE {
        assert Flat([p]) == p + [];
      } else {
        var last := p[|p| - 1];
        assert last in p && last in dbs[0].notes;
        ChainFalls(dbs[1..], last, authors);
        FallingConcat(p, Flat(Pages(dbs[1..], last, authors)));
        assert Flat(Pages(dbs, cursor, authors)) == p + Flat(Pages(dbs[1..], last, authors)) by {
          assert Pages(dbs, cursor, authors)[1..] == Pages(dbs[1..], last, authors);
        }
      }
    }
  }

  lemma {:induction false} PresentAllAlong(dbs: seq<Db>, id: nat, i: nat)
    requires i < |dbs| && (forall k | 0 <= k < |dbs| - 1 :: Evolves(dbs[k], dbs[k + 1]))
    requires id < dbs[0].next && id in dbs[|dbs| - 1].notes
    ensures id in dbs[i].notes && dbs[i].notes[id] == dbs[|dbs| - 1].notes[id] && dbs[0].next <= dbs[i].next
    decreases |dbs| - i
  {
    NextGrows(dbs, i);
    if i < |dbs| - 1 { PresentAllAlong(dbs, id, i + 1); }
  }

  lemma {:induction false} NextGrows(dbs: seq<Db>, i: nat)
    requires i < |dbs| && (forall k | 0 <= k < |dbs| - 1 :: Evolves(dbs[k], dbs[k + 1]))
    ensures dbs[0].next <= dbs[i].next
  {
    if i > 0 {
      NextGrows(dbs, i - 1);
      assert Evolves(dbs[i - 1], dbs[i - 1 + 1]);
    }
  }

  // A note below the cursor that every table of the chain holds is on one of the pages.
  lemma {:induction false} ChainCovers(dbs: seq<Db>, cursor: nat, authors: seq<string>, id: nat)
    requires cursor > 0 && Ended(Pages(dbs, cursor, authors)) && id < cursor
    requires forall i | 0 <= i < |dbs| :: Sane(dbs[i]) && id in Matching(dbs[i].notes, 0, authors)
    ensures id in Flat(Pages(dbs, cursor, authors))
    decreases |dbs|
  {
    var p := ListNotes(dbs[0], cursor, PAGE, authors);
    PageBelow(dbs[0], cursor, authors);
    assert id in Matching(dbs[0].notes, cursor, authors);
    if |p| < PAGE {
      assert Flat([p]) == p + [];
    } else {
      var last, pages := p[|p| - 1], Pages(dbs, cursor, authors);
      var rest := Pages(dbs[1..], last, authors);
      assert pages[1..] == rest && last in p && last in dbs[0].notes;
      if id !in p {
        assert rest != [] && rest[|rest| - 1] == pages[|pages| - 1];
        ChainCovers(dbs[1..], last, authors, id);
      }
    }
  }

  /** Once a short page ends the chain, every matching note below the first cursor that is still there
      was delivered: ids below the cursor are old, so they were there at every request. */
  lemma ChainDeliversAllSurvivors(dbs: seq<Db>, cursor: nat, authors: seq<string>, id: nat)
    requires dbs != [] && 0 < cursor <= dbs[0].next && Ended(Pages(dbs, cursor, authors))
    requires forall i | 0 <= i < |dbs| :: Sane(dbs[i])
    requires forall k | 0 <= k < |dbs| - 1 :: Evolves(dbs[k], dbs[k + 1])
    requires id in Matching(dbs[|dbs| - 1].notes, cursor, authors)
    ensures id in Flat(Pages(dbs, cursor, authors))
  {
    forall i | 0 <= i < |dbs| ensures id in Matching(dbs[i].notes, 0, authors) {
      PresentAllAlong(dbs, id, i);
    }
    ChainCovers(dbs, cursor, authors, id);
  }

  /** The chain ends: each full page uses up fifty ids below the cursor, so at most (cursor - 1) / 50
      pages are full. */
  lemma {:induction false} ChainEnds(dbs: seq<Db>, cursor: nat, authors: seq<string>)
    requires cursor > 0 && forall i | 0 <= i < |dbs| :: Sane(dbs[i])
    requires PAGE * |dbs| >= cursor
    ensures Ended(Pages(dbs, cursor, authors))
    decreases |dbs|
  {
    var p := ListNotes(dbs[0], cursor, PAGE, authors);
    PageBelow(dbs[0], cursor, authors);
    if |p| == PAGE {
      var last := p[|p| - 1];
      assert last in p && last in dbs[0].notes;
      LastIsLeast(p, 0);
      ChainEnds(dbs[1..], last, authors);
      var rest := Pages(dbs[1..], last, authors);
      assert Pages(dbs, cursor, authors) == [p] + rest;
    }
  }
}

/** WebAuthn ceremony state in internal/store/store.go: rows saved under random ids, consumed by one
    DELETE ... RETURNING, and swept by the janitor of internal/maintenance/maintenance.go. */
module Flows {
  import opened Wrappers

  datatype Flow = Flow(user: Option<string>, kind: string, data: string, expires: int)
  type Table = map<string, Flow>

  datatype Event =
    | Save(id: string, flow: Flow, now: int)
    | Consume(id: string, kind: string, now: int)
    | Sweep(now: int)

  // id is the primary key: a second insert under the same id fails and changes nothing.
  function SaveRow(t: Table, id: string, f: Flow): Table {
    if id in t then t else t[id := f]
  }

  predicate Live(t: Table, id: string, now: int) {
    id in t && t[id].expires > now
  }

  function ConsumeRow(t: Table, id: string, kind: string, now: int): (Table, Option<Flow>) {
    if Live(t, id, now) && t[id].kind == kind then (t - {id}, Some(t[id])) else (t, None)
  }

  function SweepRows(t: Table, now: int): Table {
    map id | id in t && t[id].expires > now :: t[id]
  }

  function Next(t: Table, e: Event): Table {
    match e
    case Save(id, f, _) => SaveRow(t, id, f)
    case Consume(id, kind, now) => ConsumeRow(t, id, kind, now).0
    case Sweep(now) => SweepRows(t, now)
  }

  // Database time does not run backwards, and random ids do not repeat.
  ghost predicate Orderly(es: seq<Event>) {
    && (forall i, j | 0 <= i < j < |es| :: es[i].now <= es[j].now)
    && (forall i, j | 0 <= i < j < |es| && es[i].Save? && es[j].Save? :: es[i].id != es[j].id)
  }

  function After(es: seq<Event>, n: nat): Table
    requires n <= |es|
  {
    if n == 0 then map[] else Next(After(es, n - 1), es[n - 1])
  }

  /** What the n-th event, a ConsumeFlow, returns. */
  function Outcome(es: seq<Event>, n: nat): Option<Flow>
    requires n < |es| && es[n].Consume?
  {
    ConsumeRow(After(es, n), es[n].id, es[n].kind, es[n].now).1
  }

  // ---------------------------------------------------------------------------
  // A flow is consumed exactly when it should be
  // ---------------------------------------------------------------------------

  // Event m takes the flow id out of the table.
  predicate Takes(es: seq<Event>, m: nat, id: string)
    requires m < |es|
  {
    es[m].Consume? && es[m].id == id && Outcome(es, m).Some?
  }

  // Event k saves the flow; the id is free.
  predicate Enters(es: seq<Event>, k: nat, id: string, f: Flow)
    requires k < |es|
  {
    es[k].Save? && es[k].id == id && es[k].flow == f && id !in After(es, k)
  }

  // Event m takes the flow out, or sweeps it because it has expired.
  predicate Leaves(es: seq<Event>, m: nat, id: string, f: Flow)
    requires m < |es|
  {
    Takes(es, m, id) || (es[m].Sweep? && f.expires <= es[m].now)
  }

  ghost predicate StillThere(es: seq<Event>, n: nat, k: nat, id: string, f: Flow)
    requires n <= |es|
  {
    k < n && Enters(es, k, id, f) && forall m | k < m < n :: !Leaves(es, m, id, f)
  }

  /** On any run, ids that repeat and clocks that run backwards included: the table holds a flow if and only if it
      was saved under a free id and has since been neither consumed nor swept as expired. */
  lemma {:induction false} TableHoldsIff(es: seq<Event>, n: nat, id: string, f: Flow)
    requires n <= |es|
    ensures id in After(es, n) && After(es, n)[id] == f <==> exists k: nat :: StillThere(es, n, k, id, f)
  {
    if n > 0 {
      TableHoldsIff(es, n - 1, id, f);
      var e, was, got := es[n - 1], After(es, n - 1), After(es, n);
      if id in got && got[id] == f {
        if id in was && was[id] == f {
          var k: nat :| StillThere(es, n - 1, k, id, f);
          assert !Leaves(es, n - 1, id, f);
          assert StillThere(es, n, k, id, f);
        } else {
          assert StillThere(es, n, n - 1, id, f);
        }
      }
      if k: nat :| StillThere(es, n, k, id, f) {
        if k < n - 1 {
          assert StillThere(es, n - 1, k, id, f);
          assert !Leaves(es, n - 1, id, f);
        }
      }
    }
  }

  /** id was saved by event k as f, and no event before n has taken it. */
  ghost predicate Outstanding(es: seq<Event>, n: nat, k: nat, id: string, f: Flow)
    requires n <= |es|
  {
    && k < n && es[k].Save? && es[k].id == id && es[k].flow == f
    && forall m | k < m < n :: !Takes(es, m, id)
  }

  /** The table holds exactly the outstanding flows, apart from expired ones that may have been swept. */
  lemma {:induction false} TableHoldsOutstanding(es: seq<Event>, n: nat, id: string)
    requires Orderly(es) && n <= |es|
    ensures id in After(es, n) ==> exists k :: Outstanding(es, n, k, id, After(es, n)[id])
    ensures forall k: nat, f | Outstanding(es, n, k, id, f) ::
              if id in After(es, n) then After(es, n)[id] == f else f.expires <= es[n - 1].now
  {
    if n > 0 {
      TableHoldsOutstanding(es, n - 1, id);
      var e, was, got := es[n - 1], After(es, n - 1), After(es, n);
      forall k: nat, f | Outstanding(es, n, k, id, f)
        ensures if id in got then got[id] == f else f.expires <= e.now
      {
        if k < n - 1 {
          assert Outstanding(es, n - 1, k, id, f);
          assert !Takes(es, n - 1, id);
          assert es[n - 2].now <= e.now;
        }
      }
      if id in got && !(e.Save? && e.id == id && id !in was) {
        var k :| Outstanding(es, n - 1, k, id, was[id]);
        assert Outstanding(es, n, k, id, got[id]);
      } else if id in got {
        assert Outstanding(es, n, n - 1, id, got[id]);
      }
    }
  }

  /** In every interleaving ConsumeFlow returns a flow if and only if that flow was saved under this id,
      nobody consumed it since, its kind is the one asked for and it has not expired; sweeps play no part. */
  lemma ConsumedIffOutstanding(es: seq<Event>, n: nat, f: Flow)
    requires Orderly(es) && n < |es| && es[n].Consume?
    ensures Outcome(es, n) == Some(f) <==>
            f.kind == es[n].kind && es[n].now < f.expires && exists k :: Outstanding(es, n, k, es[n].id, f)
  {
    TableHoldsOutstanding(es, n, es[n].id);
    if exists k :: Outstanding(es, n, k, es[n].id, f) {
      var k :| Outstanding(es, n, k, es[n].id, f);
      assert es[n - 1].now <= es[n].now;
    }
  }

  /** Each flow id is finished at most once. */
  lemma FinishedAtMostOnce(es: seq<Event>, i: nat, j: nat)
    requires Orderly(es) && i < j < |es| && es[i].Consume? && es[j].Consume? && es[i].id == es[j].id
    ensures Outcome(es, i).None? || Outcome(es, j).None?
  {
    if Outcome(es, i).Some? && Outcome(es, j).Some? {
      ConsumedIffOutstanding(es, i, Outcome(es, i).value);
      ConsumedIffOutstanding(es, j, Outcome(es, j).value);
      var k :| Outstanding(es, i, k, es[i].id, Outcome(es, i).value);
      var m :| Outstanding(es, j, m, es[j].id, Outcome(es, j).value);
      assert Takes(es, i, es[i].id);
    }
  }

  // ---------------------------------------------------------------------------
  // Nobody can observe the janitor
  // ---------------------------------------------------------------------------

  function Results(t: Table, es: seq<Event>): seq<Option<Flow>>
    decreases |es|
  {
    if es == [] then [] else
      var rest := Results(Next(t, es[0]), es[1..]);
      if es[0].Consume? then [ConsumeRow(t, es[0].id, es[0].kind, es[0].now).1] + rest else rest
  }

  function WithoutSweeps(es: seq<Event>): seq<Event> {
    if es == [] then [] else if es[0].Sweep? then WithoutSweeps(es[1..]) else [es[0]] + WithoutSweeps(es[1..])
  }

  ghost predicate SameLive(t: Table, u: Table, now: int) {
    forall id :: (Live(t, id, now) <==> Live(u, id, now)) && (Live(t, id, now) ==> t[id] == u[id])
  }

  lemma {:induction false} SweepsDoNotShow(t: Table, u: Table, es: seq<Event>, now: int)
    requires Orderly(es) && SameLive(t, u, now) && (es != [] ==> now <= es[0].now)
    requires forall i | 0 <= i < |es| && es[i].Save? :: es[i].id !in t && es[i].id !in u
    ensures Results(t, es) == Results(u, WithoutSweeps(es))
    decreases |es|
  {
    if es != [] {
      var e, rest := es[0], es[1..];
      var t', u' := Next(t, e), if e.Sweep? then u else Next(u, e);
      assert SameLive(t', u', e.now) by {
        forall id ensures (Live(t', id, e.now) <==> Live(u', id, e.now)) && (Live(t', id, e.now) ==> t'[id] == u'[id]) {
          assert Live(t, id, now) <==> Live(u, id, now);
        }
      }
      assert e.Consume? ==> (Live(t, e.id, now) <==> Live(u, e.id, now));
      assert Orderly(rest) && forall i | 0 <= i < |rest| :: rest[i] == es[i + 1];
      forall i | 0 <= i < |rest| && rest[i].Save? ensures rest[i].id !in t' && rest[i].id !in u' {
        assert es[i + 1].Save?;
      }
      SweepsDoNotShow(t', u', rest, e.now);
      if !e.Sweep? { assert WithoutSweeps(es)[1..] == WithoutSweeps(rest); }
    }
  }

  /** Inserting or removing janitor passes anywhere in a run changes no ConsumeFlow result. */
  lemma JanitorIsInvisible(es: seq<Event>, fs: seq<Event>)
    requires Orderly(es) && Orderly(fs) && WithoutSweeps(es) == WithoutSweeps(fs)
    ensures Results(map[], es) == Results(map[], fs)
  {
    SweepsDoNotShow(map[], map[], es, if es == [] then 0 else es[0].now);
    SweepsDoNotShow(map[], map[], fs, if fs == [] then 0 else fs[0].now);
  }

  class FlowStore {
    var rows: Table

    constructor ()
      ensures rows == map[]
    {
      rows := map[];
    }

    method SaveFlow(id: string, f: Flow) returns (saved: bool)
      modifies this
      ensures saved == (id !in old(rows))
      ensures rows == SaveRow(old(rows), id, f)
    {
      if id in rows {
        return false;
      }
      rows := rows[id := f];
      saved := true;
    }

    method ConsumeFlow(id: string, kind: string, now: int) returns (f: Option<Flow>)
      modifies this
      ensures (rows, f) == ConsumeRow(old(rows), id, kind, now)
    {
      if id in rows && rows[id].kind == kind && rows[id].expires > now {
        f := Some(rows[id]);
        rows := rows - {id};
      } else {
        f := None;
      }
    }

    method DeleteExpiredFlows(now: int) returns (n: nat)
      modifies this
      ensures rows == SweepRows(old(rows), now) && n == |old(rows)| - |rows|
    {
      ghost var was := rows;
      var left := rows.Keys;
      n := 0;
      while left != {}
        modifies this
        invariant left <= rows.Keys <= was.Keys && n == |was| - |rows|
        invariant forall id | id in rows :: rows[id] == was[id]
        invariant forall id | id in was && id !in left :: (id in rows <==> was[id].expires > now)
        decreases |left|
      {
        var id :| id in left;
        left := left - {id};
        if rows[id].expires <= now {
          assert |rows - {id}| == |rows| - 1 by {
            assert (rows - {id}).Keys == rows.Keys - {id};
          }
          rows := rows - {id};
          n := n + 1;
        }
      }
      assert rows == SweepRows(was, now);
    }
  }
}

/**
 Forgetting exited commands: which ones, in which order, and when to stop.
 */
module Reaper {
  import opened Strings

  // ---------------------------------------------------------------------------- entries

  /** What the reaper sees of a managed command. */
  datatype Entry = Entry(exited: bool, attached: bool, exitedAt: int, retained: nat)

  type Table = map<string, Entry>

  predicate Reapable(e: Entry) {
    e.exited && !e.attached
  }

  datatype Candidate = Candidate(id: string, exitedAt: int, retained: nat)

  /** Oldest exit first, ties by id. */
  predicate Before(a: Candidate, b: Candidate) {
    a.exitedAt < b.exitedAt || (a.exitedAt == b.exitedAt && StringLess(a.id, b.id))
  }

  lemma BeforeTransitive(a: Candidate, b: Candidate, c: Candidate)
    requires Before(a, b) && Before(b, c)
    ensures Before(a, c)
  {
    if a.exitedAt == b.exitedAt == c.exitedAt {
      StringLessTransitive(a.id, b.id, c.id);
    }
  }

  lemma BeforeTrichotomy(a: Candidate, b: Candidate)
    ensures a.id == b.id || Before(a, b) || Before(b, a)
    ensures !(Before(a, b) && Before(b, a))
    ensures !Before(a, a)
  {
    StringLessTrichotomy(a.id, b.id);
    StringLessTrichotomy(a.id, a.id);
  }

  function CandidateOf(t: Table, id: string): Candidate
    requires id in t
  {
    Candidate(id, t[id].exitedAt, t[id].retained)
  }

  /** The output retained by all commands of a table. */
  ghost function Retained(t: Table): nat
    decreases |t|
  {
    if t == map[] then 0
    else
      var id :| id in t;
      t[id].retained + Retained(t - {id})
  }

  lemma {:induction false} RetainedWithout(t: Table, id: string)
    requires id in t
    ensures Retained(t) == t[id].retained + Retained(t - {id})
    decreases |t|
  {
    var first :| first in t && Retained(t) == t[first].retained + Retained(t - {first});
    if first != id {
      RetainedWithout(t - {first}, id);
      RetainedWithout(t - {id}, first);
      assert t - {first} - {id} == t - {id} - {first};
    }
  }

  // ---------------------------------------------------------------------------- sorting

  predicate SortedBefore(s: seq<Candidate>) {
    forall i, j :: 0 <= i < j < |s| ==> Before(s[i], s[j])
  }

  predicate DistinctIds(s: seq<Candidate>) {
    forall i, j :: 0 <= i < j < |s| ==> s[i].id != s[j].id
  }

  function Insert(c: Candidate, s: seq<Candidate>): (r: seq<Candidate>)
    requires SortedBefore(s) && forall i :: 0 <= i < |s| ==> s[i].id != c.id
    ensures SortedBefore(r)
    ensures multiset(r) == multiset(s) + multiset{c}
    decreases |s|
  {
    if s == [] then [c]
    else
      BeforeTrichotomy(c, s[0]);
      if Before(c, s[0]) then
        InsertFirst(c, s);
        [c] + s
      else
        var rest := Insert(c, s[1..]);
        InsertLater(c, s, rest);
        [s[0]] + rest
  }

  lemma InsertFirst(c: Candidate, s: seq<Candidate>)
    requires s != [] && SortedBefore(s) && Before(c, s[0])
    ensures SortedBefore([c] + s)
  {
    forall j | 0 <= j < |s|
      ensures Before(c, s[j])
    {
      if j > 0 {
        BeforeTransitive(c, s[0], s[j]);
      }
    }
  }

  lemma InsertLater(c: Candidate, s: seq<Candidate>, rest: seq<Candidate>)
    requires s != [] && SortedBefore(s) && Before(s[0], c)
    requires SortedBefore(rest) && multiset(rest) == multiset(s[1..]) + multiset{c}
    ensures SortedBefore([s[0]] + rest)
    ensures multiset([s[0]] + rest) == multiset(s) + multiset{c}
  {
    assert s == [s[0]] + s[1..];
    forall j | 0 <= j < |rest|
      ensures Before(s[0], rest[j])
    {
      assert rest[j] in multiset(rest);
      if rest[j] != c {
        assert rest[j] in s[1..];
      }
    }
  }

  lemma DistinctByMultiset(c: Candidate, s: seq<Candidate>, r: seq<Candidate>)
    requires multiset(r) == multiset(s) && forall i :: 0 <= i < |s| ==> s[i].id != c.id
    ensures forall i :: 0 <= i < |r| ==> r[i].id != c.id
  {
    forall i | 0 <= i < |r|
      ensures r[i].id != c.id
    {
      assert r[i] in multiset(r);
      assert r[i] in s;
    }
  }

  function Sort(s: seq<Candidate>): (r: seq<Candidate>)
    requires DistinctIds(s)
    ensures SortedBefore(r) && multiset(r) == multiset(s)
    decreases |s|
  {
    if s == [] then []
    else
      assert s == [s[0]] + s[1..];
      var rest := Sort(s[1..]);
      DistinctByMultiset(s[0], s[1..], rest);
      Insert(s[0], rest)
  }

  // ------------------------------------------------------------------- what reaping means

  /** `t'` is what reaping `t` to `budget` leaves. */
  ghost predicate Reaped(t: Table, budget: int, t': Table) {
    && t'.Keys <= t.Keys
    && (forall id :: id in t' ==> t'[id] == t[id])
    // Only exited, unattached commands go, and the oldest first.
    && (forall id :: id in t && id !in t' ==> Reapable(t[id]))
    && (forall a, b :: a in t && a !in t' && b in t' && Reapable(t[b]) ==> Before(CandidateOf(t, a), CandidateOf(t, b)))
    // Reaping goes on until the rest fits or nothing more may go ...
    && (Retained(t') <= budget || forall id :: id in t' ==> !Reapable(t[id]))
    // ... and no further: putting the last one back would be over budget.
    && (t' != t ==> exists id :: Last(t, t', id) && budget < Retained(t') + t[id].retained)
  }

  ghost predicate Last(t: Table, t': Table, last: string) {
    && last in t && last !in t'
    && forall id :: id in t && id !in t' && id != last ==> Before(CandidateOf(t, id), CandidateOf(t, last))
  }

  lemma {:induction false} RetainedMonotone(t: Table, t': Table)
    requires t'.Keys <= t.Keys && forall id :: id in t' ==> t'[id] == t[id]
    ensures Retained(t') <= Retained(t)
    decreases |t|
  {
    if t'.Keys == t.Keys {
      assert t' == t;
    } else {
      var id :| id in t && id !in t';
      RetainedWithout(t, id);
      RetainedMonotone(t - {id}, t');
    }
  }

  /** Of two nested outcomes of reaping, the one that removed less cannot have stopped early. */
  lemma NoEarlyStop(t: Table, budget: int, a: Table, b: Table)
    requires Reaped(t, budget, a) && Reaped(t, budget, b) && b.Keys <= a.Keys
    ensures a.Keys <= b.Keys
  {
    if x :| x in a && x !in b {
      assert Reapable(t[x]);
      var last :| Last(t, b, last) && budget < Retained(b) + t[last].retained;
      if last in a {
        RetainedWithout(a, last);
        RetainedMonotone(a - {last}, b);
      } else {
        assert Before(CandidateOf(t, last), CandidateOf(t, x));
        BeforeTrichotomy(CandidateOf(t, x), CandidateOf(t, last));
      }
    }
  }

  lemma Nested(t: Table, budget: int, a: Table, b: Table)
    requires Reaped(t, budget, a) && Reaped(t, budget, b)
    ensures a.Keys <= b.Keys || b.Keys <= a.Keys
  {
    if x, y :| x in a && x !in b && y in b && y !in a {
      assert Reapable(t[x]) && Reapable(t[y]);
      BeforeTrichotomy(CandidateOf(t, x), CandidateOf(t, y));
    }
  }

  /** There is exactly one outcome, so the order in which the table is walked does not matter. */
  lemma ReapedIsUnique(t: Table, budget: int, a: Table, b: Table)
    requires Reaped(t, budget, a) && Reaped(t, budget, b)
    ensures a == b
  {
    Nested(t, budget, a, b);
    if b.Keys <= a.Keys {
      NoEarlyStop(t, budget, a, b);
    } else {
      NoEarlyStop(t, budget, b, a);
    }
    assert a.Keys == b.Keys;
  }

  // ------------------------------------------------------------------------ the registry

  /** The candidates are the reapable commands of a table, each once, in any order. */
  ghost predicate Surveyed(t: Table, candidates: seq<Candidate>) {
    && DistinctIds(candidates)
    && (forall c :: c in candidates ==> c.id in t && Reapable(t[c.id]) && c == CandidateOf(t, c.id))
    && (forall id :: id in t && Reapable(t[id]) ==> CandidateOf(t, id) in candidates)
  }

  class CommandRegistry {
    var commands: Table

    constructor ()
      ensures commands == map[]
    {
      commands := map[];
    }

    method Remove(id: string)
      modifies this
      ensures commands == old(commands) - {id}
    {
      commands := commands - {id};
    }

    /** Walks the table in any order, totalling what is retained and collecting what may go. */
    method Survey() returns (total: nat, candidates: seq<Candidate>)
      ensures total == Retained(commands)
      ensures Surveyed(commands, candidates)
    {
      total, candidates := 0, [];
      var todo := commands;
      while todo != map[]
        invariant todo.Keys <= commands.Keys && forall id :: id in todo ==> todo[id] == commands[id]
        invariant total + Retained(todo) == Retained(commands)
        invariant DistinctIds(candidates)
        invariant forall c :: c in candidates ==>
                    c.id in commands && c.id !in todo && Reapable(commands[c.id]) && c == CandidateOf(commands, c.id)
        invariant forall id :: id in commands && id !in todo && Reapable(commands[id]) ==> CandidateOf(commands, id) in candidates
        decreases |todo|
      {
        var id :| id in todo;
        RetainedWithout(todo, id);
        total := total + todo[id].retained;
        if Reapable(todo[id]) {
          candidates := candidates + [CandidateOf(commands, id)];
        }
        todo := todo - {id};
      }
    }

    /** Drops candidates in order while the rest is over budget. */
    method DropOldest(order: seq<Candidate>, retained: nat, budget: int)
      requires OrderOf(commands, order) && retained == Retained(commands)
      modifies this
      ensures Reaped(old(commands), budget, commands)
    {
      ghost var t := commands;
      var total := retained;
      var i := 0;
      while i < |order| && total > budget
        invariant 0 <= i <= |order|
        invariant commands == Dropped(t, order[..i])
        invariant total == Retained(commands)
        invariant i > 0 ==> budget < total + order[i - 1].retained
      {
        DropOne(t, order, i);
        commands := commands - {order[i].id};
        total := total - order[i].retained;
        i := i + 1;
      }
      PrefixDroppedIsReaped(t, budget, order, i);
    }

    method ReapExited(budget: int)
      modifies this
      ensures Reaped(old(commands), budget, commands)
    {
      var total, candidates := Survey();
      if total <= budget {
        NothingToReap(commands, budget);
        return;
      }
      var order := Sort(candidates);
      SortedMembers(commands, candidates, order);
      DropOldest(order, total, budget);
    }
  }

  ghost function Ids(s: seq<Candidate>): set<string> {
    set i | 0 <= i < |s| :: s[i].id
  }

  ghost function Dropped(t: Table, s: seq<Candidate>): Table {
    t - Ids(s)
  }

  /** `order` lists exactly the reapable commands of `t`, oldest exit first. */
  ghost predicate OrderOf(t: Table, order: seq<Candidate>) {
    && SortedBefore(order)
    && (forall i :: 0 <= i < |order| ==>
          order[i].id in t && Reapable(t[order[i].id]) && order[i] == CandidateOf(t, order[i].id))
    && (forall id :: id in t && Reapable(t[id]) ==> CandidateOf(t, id) in order)
  }

  lemma SortedMembers(t: Table, candidates: seq<Candidate>, order: seq<Candidate>)
    requires SortedBefore(order) && multiset(order) == multiset(candidates)
    requires Surveyed(t, candidates)
    ensures OrderOf(t, order)
  {
    forall i | 0 <= i < |order|
      ensures order[i] in candidates
    {
      assert order[i] in multiset(order);
    }
    forall id | id in t && Reapable(t[id])
      ensures CandidateOf(t, id) in order
    {
      assert CandidateOf(t, id) in multiset(candidates);
    }
  }

  lemma DropOne(t: Table, order: seq<Candidate>, i: nat)
    requires OrderOf(t, order) && i < |order|
    ensures order[i].id in Dropped(t, order[..i])
    ensures Dropped(t, order[..i])[order[i].id].retained == order[i].retained
    ensures Dropped(t, order[..i + 1]) == Dropped(t, order[..i]) - {order[i].id}
    ensures Retained(Dropped(t, order[..i])) == order[i].retained + Retained(Dropped(t, order[..i + 1]))
  {
    forall j | 0 <= j < i
      ensures order[j].id != order[i].id
    {
      assert Before(order[j], order[i]);
      BeforeTrichotomy(order[j], order[i]);
    }
    var a, b := order[..i], order[..i + 1];
    assert b == a + [order[i]];
    assert Ids(b) == Ids(a) + {order[i].id} by {
      forall j | 0 <= j < |a| ensures b[j].id == a[j].id {}
      assert b[i].id == order[i].id;
    }
    RetainedWithout(Dropped(t, a), order[i].id);
  }

  lemma NothingToReap(t: Table, budget: int)
    requires Retained(t) <= budget
    ensures Reaped(t, budget, t)
  {
  }

  /** What is gone comes from the prefix, and what may still go from the rest. */
  lemma SplitByPrefix(t: Table, order: seq<Candidate>, n: nat)
    requires OrderOf(t, order) && n <= |order|
    ensures
      var t' := Dropped(t, order[..n]);
      && (forall id :: id in t && id !in t' ==> exists i :: 0 <= i < n && order[i].id == id)
      && (forall b :: b in t' && Reapable(t[b]) ==> exists j :: n <= j < |order| && order[j] == CandidateOf(t, b))
  {
    var t' := Dropped(t, order[..n]);
    forall id | id in t && id !in t'
      ensures exists i :: 0 <= i < n && order[i].id == id
    {
      var i :| 0 <= i < |order[..n]| && order[..n][i].id == id;
      assert order[i].id == id;
    }
    forall b | b in t' && Reapable(t[b])
      ensures exists j :: n <= j < |order| && order[j] == CandidateOf(t, b)
    {
      var j :| 0 <= j < |order| && order[j] == CandidateOf(t, b);
    }
  }

  lemma LastOfPrefix(t: Table, order: seq<Candidate>, n: nat)
    requires OrderOf(t, order) && 0 < n <= |order|
    ensures Last(t, Dropped(t, order[..n]), order[n - 1].id)
  {
    var t' := Dropped(t, order[..n]);
    var last := order[n - 1].id;
    SplitByPrefix(t, order, n);
    assert order[..n][n - 1].id == last;
    forall id | id in t && id !in t' && id != last
      ensures Before(CandidateOf(t, id), CandidateOf(t, last))
    {
      var i :| 0 <= i < n && order[i].id == id;
    }
  }

  lemma PrefixDroppedIsReaped(t: Table, budget: int, order: seq<Candidate>, n: nat)
    requires OrderOf(t, order) && n <= |order|
    requires n == |order| || Retained(Dropped(t, order[..n])) <= budget
    requires n > 0 ==> budget < Retained(Dropped(t, order[..n])) + order[n - 1].retained
    ensures Reaped(t, budget, Dropped(t, order[..n]))
  {
    var t' := Dropped(t, order[..n]);
    SplitByPrefix(t, order, n);
    if n > 0 {
      LastOfPrefix(t, order, n);
    } else {
      assert t' == t;
    }
  }
}

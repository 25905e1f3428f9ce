/** backend/apps/catalog/models.py, lines 139-154: the category tree and its cycle check. */
module Categories {
  import opened Wrappers

  /** Parent links by primary key; None is a root. */
  type Table = map<nat, Option<nat>>

  /** The foreign key: every parent is a row. */
  predicate Closed(t: Table) {
    forall c <- t :: t[c].Some? ==> t[c].value in t
  }

  /** The row n links above c, if the chain is that long. */
  function Up(t: Table, c: Option<nat>, n: nat): Option<nat>
    decreases n
  {
    if n == 0 || c.None? then c
    else if c.value in t then Up(t, t[c.value], n - 1)
    else None
  }

  /** d is reached from c by following n >= 0 parent links. */
  ghost predicate Reaches(t: Table, c: Option<nat>, d: nat) {
    exists n: nat :: Up(t, c, n) == Some(d)
  }

  /** No row is its own proper ancestor. */
  ghost predicate Acyclic(t: Table) {
    forall c <- t :: !Reaches(t, t[c], c)
  }

  /** Values as Python compares them: a UUID never equals a string. */
  datatype Key = Uuid(id: nat) | Text(id: nat)

  // ---- Walking up ----------------------------------------------------------

  lemma {:induction false} UpAdds(t: Table, c: Option<nat>, m: nat, n: nat)
    ensures Up(t, Up(t, c, m), n) == Up(t, c, m + n)
    decreases m
  {
    if m != 0 && c.Some? && c.value in t {
      UpAdds(t, t[c.value], m - 1, n);
    }
  }

  lemma {:induction false} UpOfNone(t: Table, n: nat)
    ensures Up(t, None, n) == None
  {
  }

  ghost predicate BothMeet(t: Table, t': Table, id: nat, c: Option<nat>, m: nat) {
    Up(t, c, m) == Some(id) && Up(t', c, m) == Some(id)
  }

  /** Tables that differ at most in the row `id` walk alike until they meet it. */
  lemma {:induction false} UpAvoids(t: Table, t': Table, id: nat, c: Option<nat>, n: nat)
    requires t.Keys + {id} == t'.Keys + {id}
    requires forall k :: k in t && k != id ==> t'[k] == t[k]
    ensures Up(t', c, n) == Up(t, c, n) || exists m: nat :: m <= n && BothMeet(t, t', id, c, m)
    decreases n
  {
    if n != 0 && c.Some? {
      var k := c.value;
      if k == id {
        assert BothMeet(t, t', id, c, 0);
      } else {
        assert k in t <==> k in t' by { assert k in t'.Keys + {id} <==> k in t.Keys + {id}; }
        if k in t {
          UpAvoids(t, t', id, t[k], n - 1);
          if m: nat :| m <= n - 1 && BothMeet(t, t', id, t[k], m) {
            assert BothMeet(t, t', id, c, m + 1);
          }
        }
      }
    }
  }

  // ---- save() --------------------------------------------------------------

  function Saved(t: Table, id: nat, parent: Option<nat>): Table {
    t[id := parent]
  }

  /** The upward walk reaches the row being saved exactly when the new link would close a
      cycle. */
  lemma CycleIffReached(t: Table, id: nat, parent: Option<nat>)
    requires Acyclic(t)
    ensures Acyclic(Saved(t, id, parent)) <==> !Reaches(t, parent, id)
  {
    var t' := Saved(t, id, parent);
    if Reaches(t, parent, id) {
      ReachedStays(t, id, parent, parent);
      assert Reaches(t', t'[id], id);
    } else {
      forall c | c in t' ensures !Reaches(t', t'[c], c) {
        if n: nat :| Up(t', t'[c], n) == Some(c) {
          CycleThrough(t, id, parent, c, n);
        }
      }
    }
  }

  /** A walk that reaches id does so before it uses id's own link. */
  lemma ReachedStays(t: Table, id: nat, parent: Option<nat>, c: Option<nat>)
    requires Reaches(t, c, id)
    ensures Reaches(Saved(t, id, parent), c, id)
  {
    var t' := Saved(t, id, parent);
    var n: nat :| Up(t, c, n) == Some(id);
    UpAvoids(t, t', id, c, n);
    if m: nat :| m <= n && BothMeet(t, t', id, c, m) {
      assert Up(t', c, m) == Some(id);
    }
  }

  /** A cycle after the save was there before, or closes through the new link. */
  lemma CycleThrough(t: Table, id: nat, parent: Option<nat>, c: nat, n: nat)
    requires var t' := Saved(t, id, parent); c in t' && Up(t', t'[c], n) == Some(c)
    ensures (c in t && Reaches(t, t[c], c)) || Reaches(t, parent, id)
  {
    var t' := Saved(t, id, parent);
    UpAvoids(t, t', id, t'[c], n);
    if c == id {
      assert Up(t, parent, n) == Some(id) || Reaches(t, parent, id);
    } else if m: nat :| m <= n && BothMeet(t, t', id, t'[c], m) {
      UpAdds(t', t'[c], m, n - m);
      ThroughParent(t, id, parent, c, m, n - m);
    }
  }

  /** From c up to id in the old table, and from id back to c over the new link. */
  lemma ThroughParent(t: Table, id: nat, parent: Option<nat>, c: nat, m: nat, rest: nat)
    requires c != id && c in t && Up(t, t[c], m) == Some(id)
    requires Up(Saved(t, id, parent), Some(id), rest) == Some(c)
    ensures Reaches(t, parent, id)
  {
    var t' := Saved(t, id, parent);
    var r: nat := rest - 1;
    assert Up(t', parent, r) == Some(c);
    UpAvoids(t, t', id, parent, r);
    if Up(t, parent, r) == Some(c) {
      UpAdds(t, parent, r, m + 1);
      assert Up(t, Some(c), m + 1) == Some(id);
    } else {
      var k: nat :| k <= r && BothMeet(t, t', id, parent, k);
      assert Up(t, parent, k) == Some(id);
    }
  }

  /** A walk that meets a row twice makes that row its own ancestor. */
  lemma Revisit(t: Table, c: Option<nat>, m: nat, n: nat)
    requires m < n && Up(t, c, m).Some? && Up(t, c, m).value in t && Up(t, c, n) == Up(t, c, m)
    ensures var d := Up(t, c, m).value; Reaches(t, t[d], d)
  {
    var d := Up(t, c, m).value;
    UpAdds(t, c, m, n - m);
    assert Up(t, t[d], n - m - 1) == Some(d);
  }

  /** `visited` holds strings and is asked about UUIDs, so its branch is dead: only
      acyclicity bounds the walk. Over a table that already holds a cycle below `parent`
      and away from `id`, the walk would never end: at every length it has a next row, and
      never meets `id`. */
  lemma WalkWouldNotEnd(t: Table, id: nat, parent: nat, n: nat, k: nat)
    requires parent in t && Up(t, t[parent], n) == Some(parent)
    requires forall m: nat :: m <= n ==> Up(t, Some(parent), m) != Some(id)
    ensures Up(t, Some(parent), k).Some? && Up(t, Some(parent), k) != Some(id)
    decreases k
  {
    if n < k {
      assert Up(t, Some(parent), n + 1) == Some(parent);
      UpAdds(t, Some(parent), n + 1, k - (n + 1));
      WalkWouldNotEnd(t, id, parent, n, k - (n + 1));
    } else {
      UpAdds(t, Some(parent), k, n + 1 - k);
      UpOfNone(t, n + 1 - k);
    }
  }

  class Catalog {
    var table: Table

    ghost predicate Valid()
      reads this
    {
      Closed(table) && Acyclic(table)
    }

    constructor ()
      ensures Valid() && table == map[]
    {
      table := map[];
    }

    /** The walk of Category.save: does it meet the row being saved? */
    method MeetsSelf(id: nat, parent: Option<nat>) returns (found: bool)
      requires Valid() && (parent.Some? ==> parent.value in table)
      ensures found <==> Reaches(table, parent, id)
    {
      var visited: set<Key> := {};
      var current := parent;
      ghost var n: nat := 0;
      ghost var seen: set<nat> := {};
      while current.Some?
        invariant current == Up(table, parent, n) && (current.Some? ==> current.value in table)
        invariant forall k <- visited :: k.Text?
        invariant Walked(table, parent, n, seen, id)
        decreases |table.Keys - seen|
      {
        if current.value == id || Uuid(current.value) in visited {
          assert Reaches(table, parent, id);
          return true;
        }
        visited := visited + {Text(current.value)};
        WalkStep(table, parent, n, seen, id);
        seen := seen + {current.value};
        current := table[current.value];
        n := n + 1;
      }
      NeverReached(table, parent, n, id);
      return false;
    }

    /** Category.save: insert or update a row, or refuse. */
    method Save(id: nat, parent: Option<nat>) returns (ok: bool)
      requires Valid() && (parent.Some? ==> parent.value in table)
      modifies this
      ensures Valid()
      ensures ok <==> Acyclic(old(table)[id := parent])
      ensures table == if ok then old(table)[id := parent] else old(table)
    {
      CycleIffReached(table, id, parent);
      var found := MeetsSelf(id, parent);
      if found {
        return false;
      }
      table := table[id := parent];
      return true;
    }

    /** Deleting a category makes its children roots (on_delete=SET_NULL). */
    method Delete(id: nat)
      requires Valid() && id in table
      modifies this
      ensures Valid()
      ensures table.Keys == old(table).Keys - {id}
      ensures forall c <- table ::
        table[c] == if old(table)[c] == Some(id) then None else old(table)[c]
    {
      RemovedValid(table, id);
      table := Removed(table, id);
    }
  }

  /** d is one of the first n rows above. */
  ghost predicate Above(t: Table, parent: Option<nat>, n: nat, d: nat) {
    exists m: nat :: m < n && Up(t, parent, m) == Some(d)
  }

  /** The first n rows above, `seen`, are rows of the table and none of them is id. */
  ghost predicate Walked(t: Table, parent: Option<nat>, n: nat, seen: set<nat>, id: nat) {
    && seen <= t.Keys
    && (forall d <- seen :: Above(t, parent, n, d))
    && (forall m: nat :: m < n ==> Up(t, parent, m) != Some(id))
  }

  lemma WalkStep(t: Table, parent: Option<nat>, n: nat, seen: set<nat>, id: nat)
    requires Acyclic(t) && Walked(t, parent, n, seen, id)
    requires Up(t, parent, n).Some? && Up(t, parent, n).value in t && Up(t, parent, n).value != id
    ensures var c := Up(t, parent, n).value;
      && Walked(t, parent, n + 1, seen + {c}, id)
      && Up(t, parent, n + 1) == t[c]
      && |t.Keys - (seen + {c})| < |t.Keys - seen|
  {
    FreshRow(t, parent, n, seen);
    Shrinks(t.Keys, seen, Up(t, parent, n).value);
    UpAdds(t, parent, n, 1);
    var c := Up(t, parent, n).value;
    forall d <- seen + {c} ensures Above(t, parent, n + 1, d) {
      if d == c {
        assert Up(t, parent, n) == Some(c);
      } else {
        assert Above(t, parent, n, d);
        var m: nat :| m < n && Up(t, parent, m) == Some(d);
        assert m < n + 1;
      }
    }
  }

  lemma FreshRow(t: Table, parent: Option<nat>, n: nat, seen: set<nat>)
    requires Acyclic(t) && Up(t, parent, n).Some? && Up(t, parent, n).value in t
    requires forall d <- seen :: Above(t, parent, n, d)
    ensures Up(t, parent, n).value !in seen
  {
    if Up(t, parent, n).value in seen {
      var m: nat :| m < n && Up(t, parent, m) == Some(Up(t, parent, n).value);
      Revisit(t, parent, m, n);
    }
  }

  lemma Shrinks(all: set<nat>, seen: set<nat>, d: nat)
    requires d in all && d !in seen
    ensures |all - (seen + {d})| < |all - seen|
  {
    assert all - seen == (all - (seen + {d})) + {d};
  }

  lemma NeverReached(t: Table, parent: Option<nat>, n: nat, id: nat)
    requires Up(t, parent, n) == None && forall m: nat :: m < n ==> Up(t, parent, m) != Some(id)
    ensures !Reaches(t, parent, id)
  {
    forall k: nat ensures Up(t, parent, k) != Some(id) {
      if n <= k {
        UpAdds(t, parent, n, k - n);
        UpOfNone(t, k - n);
      }
    }
  }

  function Removed(t: Table, id: nat): Table {
    map c | c in t && c != id :: if t[c] == Some(id) then None else t[c]
  }

  lemma RemovedValid(t: Table, id: nat)
    requires Closed(t) && Acyclic(t) && id in t
    ensures Closed(Removed(t, id)) && Acyclic(Removed(t, id))
  {
    var t' := Removed(t, id);
    forall c | c in t' ensures !Reaches(t', t'[c], c) {
      if n: nat :| Up(t', t'[c], n) == Some(c) {
        RemovedWalks(t, id, t'[c], n);
        UpOfNone(t', n);
        assert Reaches(t, t[c], c);
      }
    }
  }

  /** A walk that survives the removal was a walk before it. */
  lemma {:induction false} RemovedWalks(t: Table, id: nat, c: Option<nat>, n: nat)
    ensures Up(Removed(t, id), c, n).Some? ==> Up(t, c, n) == Up(Removed(t, id), c, n)
    decreases n
  {
    var t' := Removed(t, id);
    if n != 0 && c.Some? && c.value in t' {
      RemovedWalks(t, id, t'[c.value], n - 1);
      UpOfNone(t', n - 1);
      if n == 1 && t[c.value] == Some(id) {
        assert Up(t', c, n) == None;
      }
    }
  }
}

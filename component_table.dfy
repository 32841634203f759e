/**
 * The component table: a JavaScript object used as a dictionary from
 * component id to component. An object keeps its own keys in insertion
 * order, assigning to an existing key keeps its place, and a `for...in`
 * loop visits the keys in that order.
 */
module ComponentTable {
  import opened Options
  import opened StatusTypes

  datatype Table = Table(keys: seq<string>, entries: map<string, Component>)

  const Empty: Table := Table([], map[])

  /** The keys are distinct and are exactly the keys of the entries. */
  predicate Valid(t: Table) {
    && (forall i, j | 0 <= i < j < |t.keys| :: t.keys[i] != t.keys[j])
    && (forall i | 0 <= i < |t.keys| :: t.keys[i] in t.entries)
    && (forall k | k in t.entries :: k in t.keys)
  }

  function Get(t: Table, k: string): Option<Component> {
    if k in t.entries then Some(t.entries[k]) else None
  }

  /** `table[c.id] = c`: the entry for `c.id` becomes `c`, a new key goes
      last, and no other key or entry changes. */
  function Put(t: Table, c: Component): (r: Table)
    ensures Valid(t) ==> Valid(r)
    ensures Get(r, c.id) == Some(c)
    ensures forall k | k != c.id :: Get(r, k) == Get(t, k)
    ensures |t.keys| <= |r.keys| && r.keys[..|t.keys|] == t.keys
    ensures |r.keys| == |t.keys| + (if c.id in t.entries then 0 else 1)
  {
    if c.id in t.entries then Table(t.keys, t.entries[c.id := c])
    else Table(t.keys + [c.id], t.entries[c.id := c])
  }

  /** The entries in iteration order. */
  function Values(t: Table): (vs: seq<Component>)
    requires Valid(t)
    ensures |vs| == |t.keys|
    ensures forall i | 0 <= i < |t.keys| :: vs[i] == t.entries[t.keys[i]]
  {
    seq(|t.keys|, i requires 0 <= i < |t.keys| => t.entries[t.keys[i]])
  }

  /** The assignments `table[c.id] = c` for each `c` of `cs`, in order. */
  function PutAll(t: Table, cs: seq<Component>): (r: Table)
    ensures Valid(t) ==> Valid(r)
  {
    if cs == [] then t else Put(PutAll(t, cs[..|cs| - 1]), cs[|cs| - 1])
  }

  /** The last component of `cs` whose id is `k`, if any. */
  function LastWithId(cs: seq<Component>, k: string): Option<Component> {
    if cs == [] then None
    else if cs[|cs| - 1].id == k then Some(cs[|cs| - 1])
    else LastWithId(cs[..|cs| - 1], k)
  }

  /** LastWithId finds the component at the greatest position with id `k`. */
  lemma {:induction false} LastWithIdIsLast(cs: seq<Component>, k: string)
    ensures LastWithId(cs, k).None? <==> forall i | 0 <= i < |cs| :: cs[i].id != k
    ensures LastWithId(cs, k).Some? ==>
      exists p | 0 <= p < |cs| :: LastWithId(cs, k) == Some(cs[p]) && cs[p].id == k
        && forall q | p < q < |cs| :: cs[q].id != k
  {
    if cs != [] {
      var init := cs[..|cs| - 1];
      LastWithIdIsLast(init, k);
      if cs[|cs| - 1].id != k {
        assert forall i | 0 <= i < |init| :: init[i] == cs[i];
        if LastWithId(cs, k).Some? {
          var p :| 0 <= p < |init| && LastWithId(init, k) == Some(init[p]) && init[p].id == k
            && forall q | p < q < |init| :: init[q].id != k;
          assert cs[p] == init[p];
        }
      }
    }
  }

  /** Of two runs of assignments, the later one decides. */
  lemma {:induction false} LastWithIdAppend(a: seq<Component>, b: seq<Component>, k: string)
    ensures LastWithId(a + b, k) == if LastWithId(b, k).Some? then LastWithId(b, k) else LastWithId(a, k)
  {
    if b != [] {
      assert (a + b)[..|a + b| - 1] == a + b[..|b| - 1];
      LastWithIdAppend(a, b[..|b| - 1], k);
    } else {
      assert a + b == a;
    }
  }

  /** After the assignments, a key holds the last component assigned to it;
      a key nothing was assigned to keeps its old entry, or stays absent. */
  lemma {:induction false} PutAllGet(t: Table, cs: seq<Component>, k: string)
    ensures Get(PutAll(t, cs), k) == if LastWithId(cs, k).Some? then LastWithId(cs, k) else Get(t, k)
  {
    if cs != [] {
      PutAllGet(t, cs[..|cs| - 1], k);
    }
  }

  /** Two runs of assignments one after the other are the run of both. */
  lemma {:induction false} PutAllAppend(t: Table, a: seq<Component>, b: seq<Component>)
    ensures PutAll(PutAll(t, a), b) == PutAll(t, a + b)
  {
    if b == [] {
      assert a + b == a;
    } else {
      assert (a + b)[..|a + b| - 1] == a + b[..|b| - 1];
      PutAllAppend(t, a, b[..|b| - 1]);
    }
  }

  /** The assignments only ever append keys: the old iteration order is a prefix of the new one. */
  lemma {:induction false} PutAllKeepsOrder(t: Table, cs: seq<Component>)
    ensures |t.keys| <= |PutAll(t, cs).keys| && PutAll(t, cs).keys[..|t.keys|] == t.keys
  {
    if cs != [] {
      PutAllKeepsOrder(t, cs[..|cs| - 1]);
    }
  }

}

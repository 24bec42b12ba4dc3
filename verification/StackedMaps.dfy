/**
 * A map with snapshots: a stack of levels, each inheriting from the one below, with a per-key index
 * of the levels that hold the key.
 */
module StackedMaps {

  datatype Entry<+K, +V> = Entry(key: K, value: V)

  /** What the source of the map says about a key. */
  datatype Lookup<+V> = Found(value: V) | NotFound | Failed

  // ---------- The simple form: a stack of journals ----------

  type Journals<K, V> = seq<seq<Entry<K, V>>>

  /** All puts still in effect, oldest first. */
  function Flatten<K, V>(js: Journals<K, V>): seq<Entry<K, V>> {
    if js == [] then [] else Flatten(js[..|js| - 1]) + js[|js| - 1]
  }

  /** The value of the last put of a key, else what the source says. */
  function Read<K(==), V>(src: K -> Lookup<V>, entries: seq<Entry<K, V>>, key: K): Lookup<V> {
    if entries == [] then src(key)
    else if entries[|entries| - 1].key == key then Found(entries[|entries| - 1].value)
    else Read(src, entries[..|entries| - 1], key)
  }

  lemma {:induction false} ReadAppend<K, V>(src: K -> Lookup<V>, xs: seq<Entry<K, V>>, ys: seq<Entry<K, V>>, key: K)
    ensures Read(src, xs + ys, key) == if exists i :: 0 <= i < |ys| && ys[i].key == key then Read(src, ys, key) else Read(src, xs, key)
  {
    if ys == [] {
      assert xs + ys == xs;
    } else {
      var n := |ys| - 1;
      assert (xs + ys)[..|xs + ys| - 1] == xs + ys[..n];
      ReadAppend(src, xs, ys[..n], key);
      if ys[n].key != key {
        assert (exists i :: 0 <= i < |ys[..n]| && ys[..n][i].key == key) <==> exists i :: 0 <= i < |ys| && ys[i].key == key by {
          if i :| 0 <= i < |ys| && ys[i].key == key {
            assert ys[..n][i].key == key;
          }
        }
      }
    }
  }

  /** The operations that change the map. */
  datatype Op<+K, +V> = Push | Pop | PopTo(depth: nat) | Put(key: K, value: V)

  function Truncate<K, V>(js: Journals<K, V>, depth: nat): Journals<K, V> {
    if depth < |js| then js[..depth] else js
  }

  function Apply<K, V>(js: Journals<K, V>, op: Op<K, V>): Journals<K, V>
    requires op.Pop? || op.Put? ==> js != []
  {
    match op
    case Push => js + [[]]
    case Pop => js[..|js| - 1]
    case PopTo(depth) => Truncate(js, depth)
    case Put(key, value) => js[|js| - 1 := js[|js| - 1] + [Entry(key, value)]]
  }

  /** The operations can be carried out and never pop a level below `depth`. */
  predicate Above<K, V>(js: Journals<K, V>, ops: seq<Op<K, V>>, depth: nat)
    decreases |ops|
  {
    && |js| > depth
    && (ops != [] ==> Above(Apply(js, ops[0]), ops[1..], depth))
  }

  function Run<K, V>(js: Journals<K, V>, ops: seq<Op<K, V>>): Journals<K, V>
    requires Above(js, ops, 0)
    decreases |ops|
  {
    if ops == [] then js else Run(Apply(js, ops[0]), ops[1..])
  }

  lemma {:induction false} AboveLess<K, V>(js: Journals<K, V>, ops: seq<Op<K, V>>, depth: nat)
    requires Above(js, ops, depth)
    ensures Above(js, ops, 0)
    decreases |ops|
  {
    if ops != [] {
      AboveLess(Apply(js, ops[0]), ops[1..], depth);
    }
  }

  lemma {:induction false} BaseKept<K, V>(js: Journals<K, V>, ops: seq<Op<K, V>>, depth: nat)
    requires Above(js, ops, depth) && Above(js, ops, 0)
    ensures |Run(js, ops)| > depth && Run(js, ops)[..depth] == js[..depth]
    decreases |ops|
  {
    if ops != [] {
      var next := Apply(js, ops[0]);
      AboveLess(next, ops[1..], depth);
      assert next[..depth] == js[..depth];
      BaseKept(next, ops[1..], depth);
    }
  }

  /**
   * A checkpoint is an undo point: after pushing, any operations that do not pop below the
   * checkpoint, nested checkpoints included, are undone by popping to the depth that the push returned.
   */
  lemma {:induction false} CheckpointRestores<K, V>(js: Journals<K, V>, ops: seq<Op<K, V>>)
    requires Above(Apply(js, Push), ops, |js|)
    ensures Above(Apply(js, Push), ops, 0)
    ensures Apply(Run(Apply(js, Push), ops), PopTo(|js|)) == js
  {
    AboveLess(Apply(js, Push), ops, |js|);
    BaseKept(Apply(js, Push), ops, |js|);
    assert Apply(js, Push)[..|js|] == js;
  }

  // ---------- Levels and revisions ----------

  datatype Level<K, V> = Level(kvs: map<K, V>, journal: seq<Entry<K, V>>)

  /** The last put of each key. */
  function Writes<K, V>(journal: seq<Entry<K, V>>): map<K, V> {
    if journal == [] then map[]
    else Writes(journal[..|journal| - 1])[journal[|journal| - 1].key := journal[|journal| - 1].value]
  }

  /** Indices of the levels that hold the key, in increasing order. */
  function Revisions<K, V>(levels: seq<Level<K, V>>, key: K): (revs: seq<nat>)
    ensures forall r :: r in revs ==> r < |levels| && key in levels[r].kvs
  {
    if levels == [] then []
    else
      var n := |levels| - 1;
      Revisions(levels[..n], key) + if key in levels[n].kvs then [n] else []
  }

  /** Top-down search through the levels, falling back to the source. */
  function TopDown<K, V>(src: K -> Lookup<V>, levels: seq<Level<K, V>>, key: K): Lookup<V> {
    if levels == [] then src(key)
    else if key in levels[|levels| - 1].kvs then Found(levels[|levels| - 1].kvs[key])
    else TopDown(src, levels[..|levels| - 1], key)
  }

  /** The index lists exactly the levels that hold the key, and has no entry for a key that no level holds. */
  ghost predicate Indexed<K, V>(levels: seq<Level<K, V>>, index: map<K, seq<nat>>, key: K) {
    if Revisions(levels, key) == [] then key !in index else key in index && index[key] == Revisions(levels, key)
  }

  ghost predicate Consistent<K(!new), V>(levels: seq<Level<K, V>>, index: map<K, seq<nat>>) {
    && (forall i :: 0 <= i < |levels| ==> levels[i].kvs == Writes(levels[i].journal))
    && (forall k {:trigger Indexed(levels, index, k)} :: Indexed(levels, index, k))
  }

  function JournalsOf<K, V>(levels: seq<Level<K, V>>): (js: Journals<K, V>)
    ensures |js| == |levels| && forall i :: 0 <= i < |levels| ==> js[i] == levels[i].journal
  {
    seq(|levels|, i requires 0 <= i < |levels| => levels[i].journal)
  }

  /** Each key's revisions are strictly increasing. */
  lemma {:induction false} RevisionsIncrease<K, V>(levels: seq<Level<K, V>>, key: K, i: nat, j: nat)
    requires i < j < |Revisions(levels, key)|
    ensures Revisions(levels, key)[i] < Revisions(levels, key)[j]
  {
    var n := |levels| - 1;
    var rest := Revisions(levels[..n], key);
    if j < |rest| {
      RevisionsIncrease(levels[..n], key, i, j);
    } else {
      assert rest[i] in rest;
    }
  }

  /** The top revision is where a top-down search finds the key. */
  lemma {:induction false} TopRevision<K, V>(src: K -> Lookup<V>, levels: seq<Level<K, V>>, key: K)
    ensures var revs := Revisions(levels, key);
            TopDown(src, levels, key) ==
              if revs == [] then src(key)
              else assert revs[|revs| - 1] in revs; Found(levels[revs[|revs| - 1]].kvs[key])
  {
    if levels != [] {
      var n := |levels| - 1;
      TopRevision(src, levels[..n], key);
      var rest := Revisions(levels[..n], key);
      if key !in levels[n].kvs {
        assert Revisions(levels, key) == rest;
        if rest != [] {
          assert rest[|rest| - 1] in rest;
        }
      }
    }
  }

  lemma {:induction false} WritesRead<K, V>(src: K -> Lookup<V>, journal: seq<Entry<K, V>>, key: K)
    ensures key in Writes(journal) <==> exists i :: 0 <= i < |journal| && journal[i].key == key
    ensures key in Writes(journal) ==> Read(src, journal, key) == Found(Writes(journal)[key])
  {
    if journal != [] {
      var n := |journal| - 1;
      WritesRead(src, journal[..n], key);
      if journal[n].key != key {
        assert (exists i :: 0 <= i < n && journal[..n][i].key == key) <==> exists i :: 0 <= i < |journal| && journal[i].key == key by {
          if i :| 0 <= i < |journal| && journal[i].key == key {
            assert journal[..n][i].key == key;
          }
          if i :| 0 <= i < n && journal[..n][i].key == key {
            assert journal[i].key == key;
          }
        }
      }
    }
  }

  /** A top-down search returns the last put of the key in the whole journal. */
  lemma {:induction false} TopDownIsLast<K(!new), V>(src: K -> Lookup<V>, levels: seq<Level<K, V>>, key: K)
    requires forall i :: 0 <= i < |levels| ==> levels[i].kvs == Writes(levels[i].journal)
    ensures TopDown(src, levels, key) == Read(src, Flatten(JournalsOf(levels)), key)
  {
    if levels != [] {
      var n := |levels| - 1;
      TopDownIsLast(src, levels[..n], key);
      assert JournalsOf(levels)[..n] == JournalsOf(levels[..n]);
      ReadAppend(src, Flatten(JournalsOf(levels[..n])), levels[n].journal, key);
      WritesRead(src, levels[n].journal, key);
    }
  }

  // ---------- The map itself ----------

  lemma {:induction false} RevisionsPush<K, V>(levels: seq<Level<K, V>>, top: Level<K, V>, key: K)
    ensures Revisions(levels + [top], key) == Revisions(levels, key) + if key in top.kvs then [|levels|] else []
  {
    assert (levels + [top])[..|levels|] == levels;
  }

  lemma {:induction false} RevisionsPut<K, V>(levels: seq<Level<K, V>>, key: K, value: V, k: K)
    requires levels != []
    ensures var n := |levels| - 1;
            var top := Level(levels[n].kvs[key := value], levels[n].journal + [Entry(key, value)]);
            Revisions(levels[n := top], k) ==
              if k == key && key !in levels[n].kvs then Revisions(levels, k) + [n] else Revisions(levels, k)
    ensures var revs := Revisions(levels, k);
            k in levels[|levels| - 1].kvs <==> revs != [] && revs[|revs| - 1] == |levels| - 1
  {
    var n := |levels| - 1;
    var top := Level(levels[n].kvs[key := value], levels[n].journal + [Entry(key, value)]);
    assert levels == levels[..n] + [levels[n]] && levels[n := top] == levels[..n] + [top];
    RevisionsPush(levels[..n], levels[n], k);
    RevisionsPush(levels[..n], top, k);
    var rest := Revisions(levels[..n], k);
    if rest != [] {
      assert rest[|rest| - 1] in rest;
    }
  }

  /** Putting a key keeps the index exact. */
  lemma {:induction false} ConsistentAfterPut<K(!new), V>(levels: seq<Level<K, V>>, index: map<K, seq<nat>>, key: K, value: V)
    requires levels != [] && Consistent(levels, index)
    ensures key in index ==> index[key] != []
    ensures var n := |levels| - 1;
            var top := Level(levels[n].kvs[key := value], levels[n].journal + [Entry(key, value)]);
            var index' := if key !in index then index[key := [n]]
                          else if index[key][|index[key]| - 1] != n then index[key := index[key] + [n]]
                          else index;
            Consistent(levels[n := top], index')
  {
    var n := |levels| - 1;
    var top := Level(levels[n].kvs[key := value], levels[n].journal + [Entry(key, value)]);
    assert top.kvs == Writes(top.journal) by { assert top.journal[..|top.journal| - 1] == levels[n].journal; }
    assert Indexed(levels, index, key);
    RevisionsPut(levels, key, value, key);
    var index' := if key !in index then index[key := [n]]
                  else if index[key][|index[key]| - 1] != n then index[key := index[key] + [n]]
                  else index;
    var levels' := levels[n := top];
    forall k ensures Indexed(levels', index', k) {
      assert Indexed(levels, index, k);
      RevisionsPut(levels, key, value, k);
    }
  }

  class StackedMap<K(==, !new), V> {
    const src: K -> Lookup<V>
    var mapStack: seq<Level<K, V>>
    var keyRevisionMap: map<K, seq<nat>>

    ghost predicate Valid()
      reads this
    {
      Consistent(mapStack, keyRevisionMap)
    }

    ghost function Journals(): Journals<K, V>
      reads this
    {
      JournalsOf(mapStack)
    }

    constructor (src: K -> Lookup<V>)
      ensures Valid() && this.src == src && Journals() == [[]]
    {
      this.src := src;
      mapStack := [Level(map[], [])];
      keyRevisionMap := map[];
    }

    /** Pushes a new level and returns the depth before. */
    method Push() returns (depth: nat)
      requires Valid()
      modifies this
      ensures Valid() && depth == |old(Journals())| && Journals() == Apply(old(Journals()), Op.Push)
    {
      var top := Level(map[], []);
      forall k ensures Indexed(mapStack + [top], keyRevisionMap, k) {
        assert Indexed(mapStack, keyRevisionMap, k);
        RevisionsPush(mapStack, top, k);
      }
      mapStack := mapStack + [top];
      return |mapStack| - 1;
    }

    /** Drops the top level: all puts since the last push are undone. */
    method Pop()
      requires Valid() && Journals() != []
      modifies this
      ensures Valid() && Journals() == Apply(old(Journals()), Op.Pop)
    {
      var n := |mapStack| - 1;
      var top := mapStack[n];
      assert mapStack == mapStack[..n] + [top];
      var keys := top.kvs.Keys;
      ghost var below := mapStack[..n];
      forall k | k !in keys ensures Indexed(below, keyRevisionMap, k) {
        assert Indexed(mapStack, keyRevisionMap, k);
        RevisionsPush(below, top, k);
      }
      while keys != {}
        invariant mapStack == old(mapStack) && keys <= top.kvs.Keys
        invariant forall k {:trigger Indexed(mapStack, keyRevisionMap, k)} :: k in keys ==> Indexed(mapStack, keyRevisionMap, k)
        invariant forall k {:trigger Indexed(below, keyRevisionMap, k)} :: k !in keys ==> Indexed(below, keyRevisionMap, k)
        decreases |keys|
      {
        var key :| key in keys;
        assert Indexed(mapStack, keyRevisionMap, key);
        RevisionsPush(below, top, key);
        ghost var before := keyRevisionMap;
        var revs := keyRevisionMap[key];
        revs := revs[..|revs| - 1];
        if |revs| == 0 {
          keyRevisionMap := keyRevisionMap - {key};
        } else {
          keyRevisionMap := keyRevisionMap[key := revs];
        }
        keys := keys - {key};
        forall k | k in keys ensures Indexed(mapStack, keyRevisionMap, k) {
          assert Indexed(mapStack, before, k);
        }
        forall k | k !in keys ensures Indexed(below, keyRevisionMap, k) {
          assert k != key ==> Indexed(below, before, k);
        }
      }
      mapStack := mapStack[..n];
    }

    /** Pops levels until the depth is at most `depth`. */
    method PopTo(depth: nat)
      requires Valid()
      modifies this
      ensures Valid() && Journals() == Apply(old(Journals()), Op.PopTo(depth))
    {
      while |mapStack| > depth
        invariant Valid() && |mapStack| <= |old(mapStack)|
        invariant Journals() == old(Journals())[..|mapStack|] && (|mapStack| < depth ==> mapStack == old(mapStack))
        decreases |mapStack|
      {
        Pop();
      }
    }

    /** The value of a key: that of its last put still in effect, else what the source says. */
    method Get(key: K) returns (r: Lookup<V>)
      requires Valid()
      ensures r == Read(src, Flatten(Journals()), key)
    {
      TopRevision(src, mapStack, key);
      TopDownIsLast(src, mapStack, key);
      assert Indexed(mapStack, keyRevisionMap, key);
      if key in keyRevisionMap {
        var revs := keyRevisionMap[key];
        assert revs[|revs| - 1] in revs;
        var level := mapStack[revs[|revs| - 1]];
        if key in level.kvs {
          return Found(level.kvs[key]);
        }
      }
      return src(key);
    }

    /** Puts a key into the top level. */
    method Put(key: K, value: V)
      requires Valid() && Journals() != []
      modifies this
      ensures Valid() && Journals() == Apply(old(Journals()), Op.Put(key, value))
    {
      var rev := |mapStack| - 1;
      var top := mapStack[rev];
      var top' := Level(top.kvs[key := value], top.journal + [Entry(key, value)]);
      ConsistentAfterPut(mapStack, keyRevisionMap, key, value);
      mapStack := mapStack[rev := top'];
      if key in keyRevisionMap {
        var revs := keyRevisionMap[key];
        if revs[|revs| - 1] != rev {
          keyRevisionMap := keyRevisionMap[key := revs + [rev]];
        }
      } else {
        keyRevisionMap := keyRevisionMap[key := [rev]];
      }
    }

    /** Visits the puts in effect, oldest first, until the callback returns false. */
    method Journal(visit: Entry<K, V> -> bool) returns (seen: seq<Entry<K, V>>)
      requires Valid()
      ensures seen <= Flatten(Journals())
      ensures forall i :: 0 <= i < |seen| - 1 ==> visit(seen[i])
      ensures seen == Flatten(Journals()) || (seen != [] && !visit(seen[|seen| - 1]))
    {
      seen := [];
      var i := 0;
      while i < |mapStack|
        invariant 0 <= i <= |mapStack| && seen == Flatten(Journals()[..i])
        invariant forall k :: 0 <= k < |seen| ==> visit(seen[k])
      {
        FlattenNext(Journals(), i);
        FlattenPrefix(Journals(), i + 1);
        var more, part := VisitLevel(mapStack[i].journal, visit);
        seen := seen + part;
        if !more {
          return;
        }
        i := i + 1;
      }
      assert Journals()[..i] == Journals();
    }

    /** Visits one level; tells whether to go on. */
    static method VisitLevel(journal: seq<Entry<K, V>>, visit: Entry<K, V> -> bool) returns (more: bool, seen: seq<Entry<K, V>>)
      ensures seen <= journal && (forall i :: 0 <= i < |seen| - 1 ==> visit(seen[i]))
      ensures if more then seen == journal && (forall i :: 0 <= i < |seen| ==> visit(seen[i])) else seen != [] && !visit(seen[|seen| - 1])
    {
      seen := [];
      var j := 0;
      while j < |journal|
        invariant 0 <= j <= |journal| && seen == journal[..j]
        invariant forall k :: 0 <= k < |seen| ==> visit(seen[k])
      {
        seen := seen + [journal[j]];
        if !visit(journal[j]) {
          return false, seen;
        }
        j := j + 1;
      }
      more := true;
    }
  }

  lemma {:induction false} FlattenNext<K, V>(js: Journals<K, V>, i: nat)
    requires i < |js|
    ensures Flatten(js[..i + 1]) == Flatten(js[..i]) + js[i]
  {
    assert js[..i + 1][..i] == js[..i];
  }

  lemma {:induction false} FlattenPrefix<K, V>(js: Journals<K, V>, i: nat)
    requires i <= |js|
    ensures Flatten(js[..i]) <= Flatten(js)
    decreases |js| - i
  {
    if i < |js| {
      FlattenPrefix(js, i + 1);
      FlattenNext(js, i);
    } else {
      assert js[..i] == js;
    }
  }

  lemma {:induction false} PushFlat<K, V>(js: Journals<K, V>)
    ensures Flatten(js + [[]]) == Flatten(js)
  {
    assert (js + [[]])[..|js|] == js && Flatten(js) + [] == Flatten(js);
  }

  lemma {:induction false} PutFlat<K, V>(js: Journals<K, V>, key: K, value: V)
    requires js != []
    ensures Flatten(Apply(js, Put(key, value))) == Flatten(js) + [Entry(key, value)]
    ensures forall i :: 0 <= i < |js| ==> Apply(js, Put(key, value))[..i] == js[..i]
  {
    var ks := Apply(js, Put(key, value));
    assert ks[..|js| - 1] == js[..|js| - 1];
  }
}

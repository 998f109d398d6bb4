/** The chained hash map over garbage-collected nodes, as a refinement of a mathematical map. */
module HashMap {

  datatype Option<T> = None | Some(value: T)

  /** A node; handles are positive numbers and 0 is the empty handle. */
  datatype Node<K, V> = Node(hash: nat, key: K, value: Option<V>, next: nat)

  type Store<K, V> = map<nat, Node<K, V>>

  // ---------------------------------------------------------------------------------------------
  // Chains
  // ---------------------------------------------------------------------------------------------

  ghost predicate Linked<K, V>(s: Store<K, V>, head: nat, chain: seq<nat>)
    decreases |chain|
  {
    if chain == [] then head == 0
    else head == chain[0] && head > 0 && head in s && Linked(s, s[head].next, chain[1..])
  }

  predicate NoRepeats(chain: seq<nat>) {
    forall a, b :: 0 <= a < b < |chain| ==> chain[a] != chain[b]
  }

  /** Changing nodes outside a chain leaves the chain linked. */
  lemma {:induction false} LinkedFrame<K, V>(s: Store<K, V>, t: Store<K, V>, head: nat, chain: seq<nat>)
    requires Linked(s, head, chain)
    requires forall h :: h in chain && h in s ==> h in t && t[h].next == s[h].next
    ensures Linked(t, head, chain)
    decreases |chain|
  {
    if chain != [] {
      LinkedFrame(s, t, s[head].next, chain[1..]);
    }
  }

  lemma {:induction false} LinkedStored<K, V>(s: Store<K, V>, head: nat, chain: seq<nat>, h: nat)
    requires Linked(s, head, chain) && h in chain
    ensures h in s && h > 0
    decreases |chain|
  {
    if h != chain[0] {
      LinkedStored(s, s[head].next, chain[1..], h);
    }
  }

  /** The walk: after `a` nodes it stands on chain[a], or on nothing at the end. */
  lemma {:induction false} LinkedAt<K, V>(s: Store<K, V>, head: nat, chain: seq<nat>, a: nat)
    requires Linked(s, head, chain) && a < |chain|
    ensures chain[a] in s && chain[a] > 0
    ensures s[chain[a]].next == if a + 1 < |chain| then chain[a + 1] else 0
    decreases |chain|
  {
    if a > 0 {
      LinkedAt(s, s[head].next, chain[1..], a - 1);
    }
  }

  /** Taking the node at position a out by relinking its predecessor. */
  lemma {:induction false} LinkedUnlink<K, V>(s: Store<K, V>, t: Store<K, V>, head: nat, chain: seq<nat>, a: nat)
    requires Linked(s, head, chain) && NoRepeats(chain) && 0 < a < |chain|
    requires forall h :: h in chain ==> h in s && h in t
    requires forall h :: h in chain && h != chain[a - 1] && h != chain[a] ==> t[h].next == s[h].next
    requires t[chain[a - 1]].next == s[chain[a]].next
    ensures Linked(t, head, chain[..a] + chain[a + 1..])
    decreases |chain|
  {
    var rest := chain[1..];
    assert rest[a - 1] == chain[a] && chain[1] == rest[0] && chain[0] in chain;
    if a == 1 {
      LinkedRest(s, head, chain);
      assert chain[1..][1..] == chain[2..];
      assert chain[..a] + chain[a + 1..] == [chain[0]] + chain[2..];
      assert forall h :: h in chain[2..] ==> h != chain[0] && h != chain[1];
      LinkedFrame(s, t, s[chain[1]].next, chain[2..]);
      assert ([chain[0]] + chain[2..])[1..] == chain[2..];
    } else {
      assert chain[a - 1] != chain[0] && chain[a] != chain[0];
      LinkedUnlink(s, t, s[head].next, rest, a - 1);
      assert (chain[..a] + chain[a + 1..])[1..] == rest[..a - 1] + rest[a..];
    }
  }

  lemma LinkedRest<K, V>(s: Store<K, V>, head: nat, chain: seq<nat>)
    requires Linked(s, head, chain) && |chain| > 1
    ensures chain[1] in s && Linked(s, s[chain[1]].next, chain[2..])
  {
    assert Linked(s, s[head].next, chain[1..]);
    assert chain[1..][1..] == chain[2..];
  }

  // ---------------------------------------------------------------------------------------------
  // Buckets
  // ---------------------------------------------------------------------------------------------

  ghost function Handles(chains: seq<seq<nat>>): set<nat> {
    set i: nat, h | i < |chains| && h in chains[i] :: h
  }

  ghost predicate AllLinked<K, V>(s: Store<K, V>, heads: seq<nat>, chains: seq<seq<nat>>) {
    |heads| == |chains| && (forall i :: 0 <= i < |chains| ==> Linked(s, heads[i], chains[i])) &&
    forall i :: 0 <= i < |chains| ==> NoRepeats(chains[i])
  }

  /** Every node sits in the bucket of its key's hash. */
  ghost predicate InPlace<K, V>(hash: K -> nat, s: Store<K, V>, chains: seq<seq<nat>>) {
    forall i :: 0 <= i < |chains| ==> BucketOk(hash, s, |chains|, i, chains[i])
  }

  ghost predicate BucketOk<K, V>(hash: K -> nat, s: Store<K, V>, buckets: nat, i: nat, chain: seq<nat>)
    requires buckets > 0
  {
    forall h :: h in chain ==> h in s && s[h].hash == hash(s[h].key) && s[h].hash % buckets == i
  }

  ghost predicate UniqueKeys<K, V>(s: Store<K, V>, handles: set<nat>) {
    forall h, g :: h in handles && g in handles && h in s && g in s && h != g ==> s[h].key != s[g].key
  }

  /** The nodes hold exactly the pairs of the map. */
  ghost predicate Represents<K, V>(s: Store<K, V>, handles: set<nat>, m: map<K, V>) {
    (forall h :: h in handles ==> h in s && s[h].key in m && s[h].value == Some(m[s[h].key])) &&
    forall k :: k in m ==> exists h :: h in handles && h in s && s[h].key == k
  }

  /** The number of keys may only lag behind `count`, and `count` fills at most three quarters of the buckets. */
  ghost predicate Filled<K, V>(m: map<K, V>, count: nat, buckets: nat) {
    |m| <= count <= buckets * 3 / 4
  }

  ghost predicate Rep<K, V>(hash: K -> nat, s: Store<K, V>, heads: seq<nat>, chains: seq<seq<nat>>, m: map<K, V>) {
    |chains| > 0 && AllLinked(s, heads, chains) && InPlace(hash, s, chains) &&
    UniqueKeys(s, Handles(chains)) && Represents(s, Handles(chains), m)
  }

  /** A key that is nowhere in its own bucket is not in the map. */
  lemma AbsentKey<K, V>(hash: K -> nat, s: Store<K, V>, heads: seq<nat>, chains: seq<seq<nat>>, m: map<K, V>, k: K)
    requires Rep(hash, s, heads, chains, m)
    requires forall h :: h in chains[hash(k) % |chains|] && h in s ==> s[h].key != k
    ensures k !in m
  {
    forall h | h in Handles(chains) && h in s ensures s[h].key != k {
      var i: nat :| i < |chains| && h in chains[i];
      assert BucketOk(hash, s, |chains|, i, chains[i]);
    }
  }

  lemma InHandles(chains: seq<seq<nat>>, i: nat, a: nat)
    requires i < |chains| && a < |chains[i]|
    ensures chains[i][a] in Handles(chains)
  {
    assert chains[i][a] in chains[i];
  }

  lemma InOneBucket<K, V>(hash: K -> nat, s: Store<K, V>, chains: seq<seq<nat>>, i: nat, j: nat, h: nat)
    requires InPlace(hash, s, chains) && i < |chains| && j < |chains| && h in chains[i] && h in chains[j]
    ensures i == j
  {
    assert BucketOk(hash, s, |chains|, i, chains[i]) && BucketOk(hash, s, |chains|, j, chains[j]);
  }

  /** Changing a value changes one pair of the map. */
  lemma ReplaceValue<K, V>(
    hash: K -> nat, s: Store<K, V>, heads: seq<nat>, chains: seq<seq<nat>>, m: map<K, V>, h: nat, v: V)
    requires Rep(hash, s, heads, chains, m) && h in Handles(chains) && h in s
    ensures Rep(hash, s[h := s[h].(value := Some(v))], heads, chains, m[s[h].key := v])
  {
    hide Handles;
    var t := s[h := s[h].(value := Some(v))];
    forall i | 0 <= i < |chains| ensures BucketOk(hash, t, |chains|, i, chains[i]) {
      assert BucketOk(hash, s, |chains|, i, chains[i]);
    }
    forall i | 0 <= i < |chains| ensures Linked(t, heads[i], chains[i]) {
      LinkedFrame(s, t, heads[i], chains[i]);
    }
  }

  lemma PrependHandles(chains: seq<seq<nat>>, i: nat, n: nat)
    requires i < |chains|
    ensures Handles(chains[i := [n] + chains[i]]) == Handles(chains) + {n}
  {
    var after := chains[i := [n] + chains[i]];
    forall h ensures h in Handles(after) <==> h in Handles(chains) || h == n {
      if h in Handles(chains) {
        var k: nat :| k < |chains| && h in chains[k];
        assert h in after[k];
      }
      assert n in after[i];
    }
  }

  lemma PrependLinked<K, V>(s: Store<K, V>, t: Store<K, V>, heads: seq<nat>, chains: seq<seq<nat>>, i: nat, n: nat)
    requires AllLinked(s, heads, chains) && i < |chains| && n > 0 && n in t && t[n].next == heads[i]
    requires n !in Handles(chains)
    requires forall h :: h in s && h != n ==> h in t && t[h].next == s[h].next
    ensures AllLinked(t, heads[i := n], chains[i := [n] + chains[i]])
  {
    var after := chains[i := [n] + chains[i]];
    forall k | 0 <= k < |chains| ensures Linked(t, heads[i := n][k], after[k]) && NoRepeats(after[k]) {
      forall h | h in chains[k] ensures h != n {
        assert h in Handles(chains);
      }
      assert NoRepeats(chains[k]);
      assert forall b :: 0 <= b < |chains[k]| ==> chains[k][b] in chains[k];
      LinkedFrame(s, t, heads[k], chains[k]);
      assert ([n] + chains[i])[1..] == chains[i];
    }
  }

  lemma AddedInPlace<K, V>(hash: K -> nat, s: Store<K, V>, chains: seq<seq<nat>>, t: Store<K, V>, n: nat, i: nat)
    requires InPlace(hash, s, chains) && n !in s && n in t && t == s[n := t[n]] && i < |chains|
    requires t[n].hash == hash(t[n].key) && t[n].hash % |chains| == i
    ensures InPlace(hash, t, chains[i := [n] + chains[i]])
  {
    var after := chains[i := [n] + chains[i]];
    forall k | 0 <= k < |after| ensures BucketOk(hash, t, |after|, k, after[k]) {
      assert BucketOk(hash, s, |chains|, k, chains[k]);
    }
  }

  /** A new node in front of its bucket adds one pair to the map. */
  lemma AddNode<K, V>(
    hash: K -> nat, s: Store<K, V>, heads: seq<nat>, chains: seq<seq<nat>>, m: map<K, V>, n: nat, k: K, v: V)
    requires Rep(hash, s, heads, chains, m) && n !in s && n > 0 && k !in m
    ensures var i := hash(k) % |chains|;
            Rep(hash, s[n := Node(hash(k), k, Some(v), heads[i])], heads[i := n],
                chains[i := [n] + chains[i]], m[k := v])
  {
    hide Handles, Linked, NoRepeats, BucketOk;
    var i := hash(k) % |chains|;
    var t := s[n := Node(hash(k), k, Some(v), heads[i])];
    assert n !in Handles(chains);
    PrependHandles(chains, i, n);
    PrependLinked(s, t, heads, chains, i, n);
    AddedInPlace(hash, s, chains, t, n, i);
    AddedPair(s, Handles(chains), m, t, n, k, v);
    hide AllLinked, InPlace, UniqueKeys, Represents;
  }

  lemma AddedPair<K, V>(s: Store<K, V>, handles: set<nat>, m: map<K, V>, t: Store<K, V>, n: nat, k: K, v: V)
    requires Represents(s, handles, m) && UniqueKeys(s, handles) && n !in s && k !in m
    requires n in t && t == s[n := t[n]] && t[n].key == k && t[n].value == Some(v)
    ensures Represents(t, handles + {n}, m[k := v]) && UniqueKeys(t, handles + {n})
  {
  }

  lemma DropHandles<K, V>(hash: K -> nat, s: Store<K, V>, chains: seq<seq<nat>>, i: nat, a: nat)
    requires InPlace(hash, s, chains) && i < |chains| && a < |chains[i]| && NoRepeats(chains[i])
    ensures Handles(chains[i := chains[i][..a] + chains[i][a + 1..]]) == Handles(chains) - {chains[i][a]}
  {
    var chain := chains[i];
    var after := chains[i := chain[..a] + chain[a + 1..]];
    var n := chain[a];
    forall h ensures h in Handles(after) <==> h in Handles(chains) && h != n {
      if h in Handles(after) {
        var k: nat :| k < |after| && h in after[k];
        if k == i {
          var b :| 0 <= b < |after[i]| && after[i][b] == h;
          assert h == chain[if b < a then b else b + 1];
        } else if h == n {
          InOneBucket(hash, s, chains, i, k, n);
        }
        assert h in chains[k];
      }
      if h in Handles(chains) && h != n {
        var k: nat :| k < |chains| && h in chains[k];
        if k == i {
          var b :| 0 <= b < |chain| && chain[b] == h;
          assert if b < a then chain[..a][b] == h else chain[a + 1..][b - a - 1] == h;
        }
        assert h in after[k];
      }
    }
  }

  function Relink<K, V>(s: Store<K, V>, chain: seq<nat>, a: nat): Store<K, V>
    requires a < |chain| && chain[a] in s && (a > 0 ==> chain[a - 1] in s)
  {
    var t := if a > 0 then s[chain[a - 1] := s[chain[a - 1]].(next := s[chain[a]].next)] else s;
    t[chain[a] := t[chain[a]].(value := None)]
  }

  lemma DropLinked<K, V>(hash: K -> nat, s: Store<K, V>, heads: seq<nat>, chains: seq<seq<nat>>, i: nat, a: nat)
    requires AllLinked(s, heads, chains) && InPlace(hash, s, chains) && i < |chains| && a < |chains[i]|
    requires chains[i][a] in s && (a > 0 ==> chains[i][a - 1] in s)
    ensures AllLinked(Relink(s, chains[i], a), if a == 0 then heads[i := s[chains[i][a]].next] else heads,
                      chains[i := chains[i][..a] + chains[i][a + 1..]])
  {
    var chain := chains[i];
    var t := Relink(s, chain, a);
    var heads' := if a == 0 then heads[i := s[chain[a]].next] else heads;
    var after := chains[i := chain[..a] + chain[a + 1..]];
    forall k | 0 <= k < |chains| ensures Linked(t, heads'[k], after[k]) && NoRepeats(after[k]) {
      assert Linked(s, heads[k], chains[k]) && NoRepeats(chains[k]);
      if k != i {
        assert chain[a] in chains[i] && (a > 0 ==> chain[a - 1] in chains[i]);
        forall h | h in chains[k] ensures h != chain[a] && (a > 0 ==> h != chain[a - 1]) {
          assert h !in chain;
        }
        LinkedFrame(s, t, heads[k], chains[k]);
      } else {
        DropFromChain(s, heads[i], chain, a);
      }
    }
  }

  lemma DropFromChain<K, V>(s: Store<K, V>, head: nat, chain: seq<nat>, a: nat)
    requires Linked(s, head, chain) && NoRepeats(chain) && a < |chain| && chain[a] in s && (a > 0 ==> chain[a - 1] in s)
    ensures Linked(Relink(s, chain, a), if a == 0 then s[chain[a]].next else head, chain[..a] + chain[a + 1..])
    ensures NoRepeats(chain[..a] + chain[a + 1..])
  {
    var t := Relink(s, chain, a);
    forall h | h in chain ensures h in s {
      LinkedStored(s, head, chain, h);
    }
    if a == 0 {
      assert chain[..a] + chain[a + 1..] == chain[1..];
      LinkedFrame(s, t, s[head].next, chain[1..]);
    } else {
      LinkedUnlink(s, t, head, chain, a);
    }
  }

  /** Unlinking a node removes one pair from the map. */
  lemma RemoveNode<K, V>(
    hash: K -> nat, s: Store<K, V>, heads: seq<nat>, chains: seq<seq<nat>>, m: map<K, V>, i: nat, a: nat)
    requires Rep(hash, s, heads, chains, m) && i < |chains| && a < |chains[i]|
    requires chains[i][a] in s && (a > 0 ==> chains[i][a - 1] in s)
    ensures Rep(hash, Relink(s, chains[i], a), if a == 0 then heads[i := s[chains[i][a]].next] else heads,
                chains[i := chains[i][..a] + chains[i][a + 1..]], m - {s[chains[i][a]].key})
  {
    hide Handles, Linked, NoRepeats, BucketOk, InPlace, UniqueKeys, Represents;
    DropHandles(hash, s, chains, i, a);
    DropLinked(hash, s, heads, chains, i, a);
    hide AllLinked;
    DropInPlace(hash, s, chains, i, a);
    InHandles(chains, i, a);
    RemovedPair(s, Handles(chains), m, Relink(s, chains[i], a), chains[i][a]);
  }

  lemma DropInPlace<K, V>(hash: K -> nat, s: Store<K, V>, chains: seq<seq<nat>>, i: nat, a: nat)
    requires InPlace(hash, s, chains) && i < |chains| && a < |chains[i]|
    requires chains[i][a] in s && (a > 0 ==> chains[i][a - 1] in s)
    ensures InPlace(hash, Relink(s, chains[i], a), chains[i := chains[i][..a] + chains[i][a + 1..]])
  {
    var after := chains[i := chains[i][..a] + chains[i][a + 1..]];
    forall k | 0 <= k < |after| ensures BucketOk(hash, Relink(s, chains[i], a), |after|, k, after[k]) {
      assert BucketOk(hash, s, |chains|, k, chains[k]);
    }
  }

  lemma RemovedPair<K, V>(s: Store<K, V>, handles: set<nat>, m: map<K, V>, t: Store<K, V>, n: nat)
    requires Represents(s, handles, m) && UniqueKeys(s, handles) && n in handles && n in s
    requires forall h :: h in s ==> h in t && t[h].key == s[h].key && (h != n ==> t[h].value == s[h].value)
    ensures Represents(t, handles - {n}, m - {s[n].key}) && UniqueKeys(t, handles - {n})
  {
    var after := m - {s[n].key};
    forall k | k in after ensures exists h :: h in handles - {n} && h in t && t[h].key == k {
      var h :| h in handles && h in s && s[h].key == k;
      assert h in handles - {n} && h in t && t[h].key == k;
    }
  }

  // ---------------------------------------------------------------------------------------------
  // Moving nodes to a larger table
  // ---------------------------------------------------------------------------------------------

  /** Two stores that differ in links only. */
  ghost predicate SameButLinks<K, V>(s: Store<K, V>, t: Store<K, V>) {
    s.Keys == t.Keys &&
    forall h :: h in s ==> h in t && t[h].hash == s[h].hash && t[h].key == s[h].key && t[h].value == s[h].value
  }

  /** Half-way through: `cs` are the nodes still to move, `out` those already moved. */
  ghost predicate Moving<K, V>(
    hash: K -> nat, s: Store<K, V>, hs: seq<nat>, cs: seq<seq<nat>>, ds: seq<nat>, out: seq<seq<nat>>, all: set<nat>)
  {
    AllLinked(s, hs, cs) && AllLinked(s, ds, out) && |out| > 0 && InPlace(hash, s, out) &&
    Handles(cs) !! Handles(out) && Handles(cs) + Handles(out) == all &&
    AllDisjoint(cs) &&
    forall h :: h in Handles(cs) ==> h in s && s[h].hash == hash(s[h].key)
  }

  predicate Disjoint(a: seq<nat>, b: seq<nat>) {
    forall h :: h in a ==> h !in b
  }

  predicate AllDisjoint(cs: seq<seq<nat>>) {
    forall i, j :: 0 <= i < j < |cs| ==> Disjoint(cs[i], cs[j])
  }

  lemma PopHandles(cs: seq<seq<nat>>, i: nat)
    requires i < |cs| && cs[i] != [] && NoRepeats(cs[i])
    requires AllDisjoint(cs)
    ensures Handles(cs[i := cs[i][1..]]) == Handles(cs) - {cs[i][0]}
    ensures AllDisjoint(cs[i := cs[i][1..]])
  {
    var after := cs[i := cs[i][1..]];
    var n := cs[i][0];
    assert n in cs[i];
    forall h ensures h in Handles(after) <==> h in Handles(cs) && h != n {
      if h in Handles(after) {
        var k: nat :| k < |after| && h in after[k];
        assert h in cs[k];
        assert k != i ==> Disjoint(cs[if k < i then k else i], cs[if k < i then i else k]);
      }
      if h in Handles(cs) && h != n {
        var k: nat :| k < |cs| && h in cs[k];
        assert h in after[k];
      }
    }
    forall k, j | 0 <= k < j < |cs| ensures Disjoint(after[k], after[j]) {
      assert Disjoint(cs[k], cs[j]);
    }
  }

  lemma PopLinked<K, V>(s: Store<K, V>, t: Store<K, V>, hs: seq<nat>, cs: seq<seq<nat>>, i: nat)
    requires AllLinked(s, hs, cs) && i < |cs| && cs[i] != [] && hs[i] in s
    requires AllDisjoint(cs)
    requires forall h :: h in s && h != cs[i][0] ==> h in t && t[h].next == s[h].next
    ensures AllLinked(t, hs[i := s[hs[i]].next], cs[i := cs[i][1..]])
  {
    var after := cs[i := cs[i][1..]];
    var n := cs[i][0];
    assert n in cs[i];
    forall k | 0 <= k < |cs| ensures Linked(t, hs[i := s[hs[i]].next][k], after[k]) && NoRepeats(after[k]) {
      assert Linked(s, hs[k], cs[k]) && NoRepeats(cs[k]);
      assert k != i ==> Disjoint(cs[if k < i then k else i], cs[if k < i then i else k]);
      assert forall h :: h in after[k] ==> h != n;
      LinkedFrame(s, t, if k == i then s[hs[i]].next else hs[k], after[k]);
    }
  }

  /** Moving the first node of bucket i in front of its new bucket. */
  lemma MoveOne<K, V>(
    hash: K -> nat, s: Store<K, V>, hs: seq<nat>, cs: seq<seq<nat>>, ds: seq<nat>, out: seq<seq<nat>>, all: set<nat>,
    i: nat, j: nat)
    requires Moving(hash, s, hs, cs, ds, out, all) && i < |cs| && cs[i] != []
    requires cs[i][0] in s && j == s[cs[i][0]].hash % |out|
    ensures var e := cs[i][0];
            Moving(hash, s[e := s[e].(next := ds[j])], hs[i := s[e].next], cs[i := cs[i][1..]],
                   ds[j := e], out[j := [e] + out[j]], all)
  {
    hide Linked, Handles, BucketOk;
    var e := cs[i][0];
    var t := s[e := s[e].(next := ds[j])];
    InHandles(cs, i, 0);
    HeadIs(s, hs, cs, i);
    PopHandles(cs, i);
    PrependHandles(out, j, e);
    PopLinked(s, t, hs, cs, i);
    PrependLinked(s, t, ds, out, j, e);
    MovedInPlace(hash, s, t, out, e, j);
    hide AllLinked, InPlace, AllDisjoint;
  }

  lemma HeadIs<K, V>(s: Store<K, V>, hs: seq<nat>, cs: seq<seq<nat>>, i: nat)
    requires AllLinked(s, hs, cs) && i < |cs| && cs[i] != []
    ensures hs[i] == cs[i][0] && hs[i] > 0 && hs[i] in s
  {
    assert Linked(s, hs[i], cs[i]);
  }

  lemma MovedInPlace<K, V>(hash: K -> nat, s: Store<K, V>, t: Store<K, V>, out: seq<seq<nat>>, e: nat, j: nat)
    requires InPlace(hash, s, out) && SameButLinks(s, t) && |out| > 0
    requires e in s && s[e].hash == hash(s[e].key) && j == s[e].hash % |out|
    ensures InPlace(hash, t, out[j := [e] + out[j]])
  {
    var after := out[j := [e] + out[j]];
    forall k | 0 <= k < |after| ensures BucketOk(hash, t, |after|, k, after[k]) {
      assert BucketOk(hash, s, |out|, k, out[k]);
    }
  }

  lemma MoveStarts<K, V>(
    hash: K -> nat, s: Store<K, V>, hs: seq<nat>, cs: seq<seq<nat>>, ds: seq<nat>, out: seq<seq<nat>>)
    requires AllLinked(s, hs, cs) && |cs| > 0 && InPlace(hash, s, cs)
    requires |ds| == |out| > 0 && forall k :: 0 <= k < |out| ==> ds[k] == 0 && out[k] == []
    ensures Moving(hash, s, hs, cs, ds, out, Handles(cs))
  {
    forall h | h in Handles(cs) ensures h in s && s[h].hash == hash(s[h].key) {
      var i: nat :| i < |cs| && h in cs[i];
      assert BucketOk(hash, s, |cs|, i, cs[i]);
    }
    forall i, j | 0 <= i < j < |cs| ensures Disjoint(cs[i], cs[j]) {
      assert BucketOk(hash, s, |cs|, i, cs[i]) && BucketOk(hash, s, |cs|, j, cs[j]);
    }
  }

  lemma MoveEnds<K, V>(
    hash: K -> nat, s: Store<K, V>, t: Store<K, V>, hs: seq<nat>, cs: seq<seq<nat>>, ds: seq<nat>,
    out: seq<seq<nat>>, all: set<nat>, m: map<K, V>)
    requires Moving(hash, t, hs, cs, ds, out, all) && forall k :: 0 <= k < |cs| ==> cs[k] == []
    requires SameButLinks(s, t) && UniqueKeys(s, all) && Represents(s, all, m)
    ensures Rep(hash, t, ds, out, m)
  {
    hide Linked, BucketOk, AllLinked, InPlace;
    assert Handles(cs) == {};
    assert Handles(out) == all;
    hide Handles;
    forall k | k in m ensures exists h :: h in all && h in t && t[h].key == k {
      var h :| h in all && h in s && s[h].key == k;
      assert h in all && h in t && t[h].key == k;
    }
  }

  // ---------------------------------------------------------------------------------------------
  // The map
  // ---------------------------------------------------------------------------------------------

  class HashMap<K(==), V> {
    const hash: K -> nat
    var count: nat
    var nodes: array<nat>
    var store: Store<K, V>
    var nextHandle: nat
    ghost var chains: seq<seq<nat>>
    ghost var contents: map<K, V>

    ghost predicate Valid()
      reads this, nodes
    {
      nodes.Length >= 16 && nextHandle > 0 && (forall h :: h in store ==> h < nextHandle) &&
      |chains| == nodes.Length && Rep(hash, store, nodes[..], chains, contents) && Filled(contents, count, nodes.Length)
    }

    /** Capacities of u32::MAX and more panic. */
    constructor (hash: K -> nat, capacity: nat)
      requires capacity < 0xFFFF_FFFF
      ensures Valid() && contents == map[] && fresh(nodes) && this.hash == hash
    {
      var cap := if capacity < 16 then 16 else capacity;
      this.hash := hash;
      count, store, nextHandle := 0, map[], 1;
      nodes := new nat[cap](_ => 0);
      chains := seq(cap, _ => []);
      contents := map[];
      new;
      assert Handles(chains) == {};
    }

    method Get(k: K) returns (r: Option<V>)
      requires Valid()
      ensures r == if k in contents then Some(contents[k]) else None
    {
      hide Rep, Handles;
      var h := Find(k);
      return if h == 0 then None else store[h].value;
    }

    /** The inner loop: every node of one bucket moves in front of its new bucket. */
    method RehashBucket(i: nat, head: nat, dst: array<nat>, ghost hs: seq<nat>, ghost cs: seq<seq<nat>>,
                        ghost out: seq<seq<nat>>, ghost all: set<nat>)
      returns (ghost hs': seq<nat>, ghost out': seq<seq<nat>>)
      requires i < |cs| == |hs| && head == hs[i] && |out| == dst.Length > 0
      requires Moving(hash, store, hs, cs, dst[..], out, all)
      modifies this`store, dst
      ensures |out'| == dst.Length && |hs'| == |hs| && SameButLinks(old(store), store)
      ensures forall k :: 0 <= k < |hs| && k != i ==> hs'[k] == hs[k]
      ensures Moving(hash, store, hs', cs[i := []], dst[..], out', all)
    {
      hide Rep, Moving, Handles;
      ghost var rest := cs;
      hs', out' := hs, out;
      var bucket := head;
      while bucket != 0
        invariant |rest| == |cs| && |hs'| == |hs| && |out'| == dst.Length && bucket == hs'[i]
        invariant Moving(hash, store, hs', rest, dst[..], out', all) && SameButLinks(old(store), store)
        invariant rest == cs[i := rest[i]] && forall k :: 0 <= k < |hs| && k != i ==> hs'[k] == hs[k]
        decreases |rest[i]|
      {
        NextToMove(hash, store, hs', rest, dst[..], out', all, i);
        var entry := store[bucket];
        var j := hash(entry.key) % dst.Length;
        MoveOne(hash, store, hs', rest, dst[..], out', all, i, j);
        store := store[bucket := entry.(next := dst[j])];
        dst[j] := bucket;
        out' := out'[j := [bucket] + out'[j]];
        rest, hs' := rest[i := rest[i][1..]], hs'[i := entry.next];
        bucket := entry.next;
      }
      BucketMoved(hash, store, hs', rest, dst[..], out', all, i);
    }

    /** Relinks every node of `src` into `dst`, in place. */
    method RehashBuckets(src: array<nat>, dst: array<nat>) returns (ghost out: seq<seq<nat>>)
      requires Rep(hash, store, src[..], chains, contents) && src != dst && dst.Length > 0
      requires forall k :: 0 <= k < dst.Length ==> dst[k] == 0
      modifies this`store, dst
      ensures |out| == dst.Length && Rep(hash, store, dst[..], out, contents) && store.Keys == old(store.Keys)
    {
      ghost var s, all := store, Handles(chains);
      ghost var hs: seq<nat>, cs: seq<seq<nat>> := src[..], chains;
      out := seq(dst.Length, _ => []);
      RepParts(hash, s, hs, cs, contents);
      MoveStarts(hash, s, hs, cs, dst[..], out);
      hide Rep, Moving, Handles, UniqueKeys, Represents;
      for i := 0 to src.Length
        invariant |cs| == |hs| == src.Length && |out| == dst.Length
        invariant Moving(hash, store, hs, cs, dst[..], out, all) && SameButLinks(s, store)
        invariant forall k :: 0 <= k < i ==> cs[k] == []
        invariant forall k :: i <= k < src.Length ==> hs[k] == src[k]
      {
        hs, out := RehashBucket(i, src[i], dst, hs, cs, out, all);
        cs := cs[i := []];
      }
      MoveEnds(hash, s, store, hs, cs, dst[..], out, all, contents);
    }

    method Resize()
      requires Valid()
      modifies this
      ensures Valid() && contents == old(contents) && count == old(count) && nodes.Length == 2 * old(nodes.Length)
      ensures fresh(nodes)
    {
      hide Rep;
      var bigger := new nat[nodes.Length * 2](_ => 0);
      ghost var out := RehashBuckets(nodes, bigger);
      nodes := bigger;
      chains := out;
    }

    /** The walk of `put` and `get` along one bucket: the node with this key, or 0. */
    method Find(k: K) returns (handle: nat)
      requires Valid()
      ensures handle != 0 ==> handle in Handles(chains) && handle in store && store[handle].key == k &&
                              k in contents && store[handle].value == Some(contents[k])
      ensures handle == 0 ==> k !in contents
    {
      hide Handles, NoRepeats, UniqueKeys, Represents, InPlace, BucketOk, Linked;
      var p := hash(k) % nodes.Length;
      ghost var chain := chains[p];
      ghost var a: nat := 0;
      var bucket := nodes[p];
      HeadOf(store, bucket, chain);
      while bucket != 0
        invariant a <= |chain| && bucket == (if a < |chain| then chain[a] else 0)
        invariant forall b :: 0 <= b < a && chain[b] in store ==> store[chain[b]].key != k
        decreases |chain| - a
      {
        LinkedAt(store, nodes[p], chain, a);
        NodeOf(hash, store, nodes[..], chains, contents, p, a);
        if store[bucket].hash == hash(k) && store[bucket].key == k {
          return bucket;
        }
        bucket := store[bucket].next;
        a := a + 1;
      }
      NotFound(store, nodes[p], chain, a, k);
      AbsentKey(hash, store, nodes[..], chains, contents, k);
      return 0;
    }

    method Put(k: K, v: V) returns (previous: Option<V>)
      requires Valid()
      modifies this, nodes
      ensures Valid() && contents == old(contents)[k := v]
      ensures previous == if k in old(contents) then Some(old(contents)[k]) else None
    {
      hide Rep, Handles;
      var h := Find(k);
      if h != 0 {
        ReplaceValue(hash, store, nodes[..], chains, contents, h, v);
        previous := store[h].value;
        store := store[h := store[h].(value := Some(v))];
        contents := contents[k := v];
        return;
      }
      if count >= nodes.Length * 3 / 4 {
        Resize();
      }
      var p := hash(k) % nodes.Length;
      AddNode(hash, store, nodes[..], chains, contents, nextHandle, k, v);
      store := store[nextHandle := Node(hash(k), k, Some(v), nodes[p])];
      count := count + 1;
      nodes[p] := nextHandle;
      chains := chains[p := [nextHandle] + chains[p]];
      nextHandle := nextHandle + 1;
      contents := contents[k := v];
      previous := None;
    }

    method Remove(k: K) returns (previous: Option<V>)
      requires Valid()
      modifies this, nodes
      ensures Valid() && contents == old(contents) - {k} && count == old(count)
      ensures previous == if k in old(contents) then Some(old(contents)[k]) else None
    {
      hide Handles, NoRepeats, UniqueKeys, Represents, InPlace, BucketOk, Linked;
      var p := hash(k) % nodes.Length;
      ghost var chain := chains[p];
      ghost var a: nat := 0;
      var bucket, prev := nodes[p], 0;
      HeadOf(store, bucket, chain);
      while bucket != 0
        invariant a <= |chain| && bucket == (if a < |chain| then chain[a] else 0)
        invariant prev == (if a > 0 then chain[a - 1] else 0) && (a > 0 ==> prev in store && prev > 0)
        invariant forall b :: 0 <= b < a && chain[b] in store ==> store[chain[b]].key != k
        invariant unchanged(this) && unchanged(nodes)
        decreases |chain| - a
      {
        LinkedAt(store, nodes[p], chain, a);
        NodeOf(hash, store, nodes[..], chains, contents, p, a);
        if store[bucket].hash == hash(k) && store[bucket].key == k {
          RemoveNode(hash, store, nodes[..], chains, contents, p, a);
          previous := store[bucket].value;
          Unlink(p, a, prev, bucket);
          return;
        }
        prev := bucket;
        bucket := store[bucket].next;
        a := a + 1;
      }
      NotFound(store, nodes[p], chain, a, k);
      AbsentKey(hash, store, nodes[..], chains, contents, k);
      return None;
    }

    /** Relinks the predecessor, or the bucket, around a node and takes the node's value. */
    method Unlink(p: nat, ghost a: nat, prev: nat, entry: nat)
      requires Valid() && p < nodes.Length && a < |chains[p]| && entry == chains[p][a] && entry in store
      requires prev == (if a > 0 then chains[p][a - 1] else 0) && (a > 0 ==> prev in store && prev > 0)
      requires store[entry].key in contents
      requires Rep(hash, Relink(store, chains[p], a), if a == 0 then nodes[..][p := store[entry].next] else nodes[..],
                   chains[p := chains[p][..a] + chains[p][a + 1..]], contents - {store[entry].key})
      modifies this, nodes
      ensures Valid() && contents == old(contents) - {old(store)[entry].key} && count == old(count)
    {
      hide Rep;
      if prev != 0 {
        store := store[prev := store[prev].(next := store[entry].next)];
      } else {
        nodes[p] := store[entry].next;
      }
      contents := contents - {store[entry].key};
      chains := chains[p := chains[p][..a] + chains[p][a + 1..]];
      store := store[entry := store[entry].(value := None)];
    }
  }

  lemma RepParts<K, V>(hash: K -> nat, s: Store<K, V>, heads: seq<nat>, chains: seq<seq<nat>>, m: map<K, V>)
    requires Rep(hash, s, heads, chains, m)
    ensures AllLinked(s, heads, chains) && |chains| > 0 && InPlace(hash, s, chains) && |heads| == |chains|
    ensures UniqueKeys(s, Handles(chains)) && Represents(s, Handles(chains), m)
  {
  }

  lemma NextToMove<K, V>(
    hash: K -> nat, s: Store<K, V>, hs: seq<nat>, cs: seq<seq<nat>>, ds: seq<nat>, out: seq<seq<nat>>, all: set<nat>,
    i: nat)
    requires Moving(hash, s, hs, cs, ds, out, all) && i < |cs| && i < |hs| && hs[i] != 0
    ensures cs[i] != [] && hs[i] == cs[i][0] && hs[i] in s && s[hs[i]].hash == hash(s[hs[i]].key)
  {
    HeadOf(s, hs[i], cs[i]);
    HeadIs(s, hs, cs, i);
    InHandles(cs, i, 0);
  }

  lemma BucketMoved<K, V>(
    hash: K -> nat, s: Store<K, V>, hs: seq<nat>, cs: seq<seq<nat>>, ds: seq<nat>, out: seq<seq<nat>>, all: set<nat>,
    i: nat)
    requires Moving(hash, s, hs, cs, ds, out, all) && i < |cs| && i < |hs| && hs[i] == 0
    ensures cs[i] == []
  {
    assert Linked(s, hs[i], cs[i]);
  }

  lemma HeadOf<K, V>(s: Store<K, V>, head: nat, chain: seq<nat>)
    requires Linked(s, head, chain)
    ensures head == (if |chain| > 0 then chain[0] else 0)
  {
  }

  lemma NotFound<K, V>(s: Store<K, V>, head: nat, chain: seq<nat>, a: nat, k: K)
    requires Linked(s, head, chain) && a <= |chain| && (a < |chain| ==> chain[a] == 0)
    requires forall b :: 0 <= b < a && chain[b] in s ==> s[chain[b]].key != k
    ensures forall h :: h in chain && h in s ==> s[h].key != k
  {
    if a < |chain| {
      LinkedAt(s, head, chain, a);
    }
  }

  /** What is known of a node on a chain. */
  lemma NodeOf<K, V>(
    hash: K -> nat, s: Store<K, V>, heads: seq<nat>, chains: seq<seq<nat>>, m: map<K, V>, i: nat, a: nat)
    requires Rep(hash, s, heads, chains, m) && i < |chains| && a < |chains[i]|
    ensures var h := chains[i][a];
            h in s && s[h].hash == hash(s[h].key) && s[h].key in m && s[h].value == Some(m[s[h].key]) &&
            h in Handles(chains)
  {
    InHandles(chains, i, a);
    assert BucketOk(hash, s, |chains|, i, chains[i]);
  }
}

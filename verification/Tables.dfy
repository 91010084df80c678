/** Tables that are written in key order and read back one record at a time (the std::map members of the states). */
module Tables {
  import opened Prelude
  import opened AgentState
  import opened AgentModel
  import opened Fields

  // ---- Identifier order ----

  ghost predicate IsLeast(k: Id, keys: set<Id>) {
    k in keys && forall x :: x in keys ==> !Before(x, k)
  }

  lemma {:induction false} LeastExists(keys: set<Id>)
    requires keys != {}
    ensures exists k :: IsLeast(k, keys)
    decreases |keys|
  {
    var k :| k in keys;
    NeverBeforeItself(k);
    if keys == {k} {
      assert IsLeast(k, keys);
    } else {
      LeastExists(keys - {k});
      var l :| IsLeast(l, keys - {k});
      if Before(k, l) {
        forall x | x in keys ensures !Before(x, k) {
          if Before(x, k) { BeforeTransitive(x, k, l); }
        }
        assert IsLeast(k, keys);
      } else {
        assert IsLeast(l, keys);
      }
    }
  }

  lemma {:induction false} NeverBeforeItself(a: Id)
    ensures !Before(a, a)
  {
    if a != "" { NeverBeforeItself(a[1..]); }
  }

  ghost function InIdOrder(keys: set<Id>): (order: seq<Id>)
    ensures Lists(order, keys) && Distinct(order) && |order| == |keys|
    decreases |keys|
  {
    if keys == {} then []
    else
      LeastExists(keys);
      var k :| IsLeast(k, keys);
      [k] + InIdOrder(keys - {k})
  }

  // ---- Reading a table back ----

  /** `emplace` for each record: the first one of each key stays. */
  function Collected<K(==), V>(key: V -> K, rows: seq<V>): map<K, V> {
    if rows == [] then map[]
    else
      var before, v := Collected(key, rows[..|rows| - 1]), rows[|rows| - 1];
      if key(v) in before then before else before[key(v) := v]
  }

  /** Every key once, in some order. */
  ghost predicate Enumerates<K(!new)>(order: seq<K>, keys: set<K>) {
    && (forall k :: k in order <==> k in keys)
    && forall i, j :: 0 <= i < j < |order| ==> order[i] != order[j]
  }

  lemma {:induction false} CollectedRows<K(!new), V>(key: V -> K, order: seq<K>, table: map<K, V>, rows: seq<V>)
    requires (forall i, j :: 0 <= i < j < |order| ==> order[i] != order[j])
    requires forall k :: k in order ==> k in table && key(table[k]) == k
    requires |rows| == |order| && forall i :: 0 <= i < |rows| ==> rows[i] == table[order[i]]
    ensures Collected(key, rows).Keys == (set k | k in order)
    ensures forall k :: k in order ==> Collected(key, rows)[k] == table[k]
    decreases |order|
  {
    if order != [] {
      var n := |order| - 1;
      CollectedRows(key, order[..n], table, rows[..n]);
      assert order == order[..n] + [order[n]];
      assert order[n] !in order[..n];
    }
  }

  /** A table written in any order of its keys is read back as it was. */
  lemma CollectedAll<K(!new), V>(key: V -> K, order: seq<K>, table: map<K, V>, rows: seq<V>)
    requires Enumerates(order, table.Keys) && forall k :: k in table ==> key(table[k]) == k
    requires |rows| == |order| && forall i :: 0 <= i < |rows| ==> rows[i] == table[order[i]]
    ensures Collected(key, rows) == table
  {
    CollectedRows(key, order, table, rows);
  }

  // ---- Digest order: byte by byte, like the text with these codes ----

  lemma TextDecidesDigest(a: Digest, b: Digest)
    requires BytesText(a) == BytesText(b)
    ensures a == b
  {
    BytesRoundTrip(a);
    BytesRoundTrip(b);
  }

  ghost function InDigestOrder(keys: set<Digest>): (order: seq<Digest>)
    ensures Enumerates(order, keys) && |order| == |keys|
  {
    var texts := set d | d in keys :: BytesText(d);
    var names := InIdOrder(texts);
    var order := seq(|names|, i requires 0 <= i < |names| => TextBytes(names[i]));
    DigestOrderLists(keys, texts, names, order);
    order
  }

  lemma {:induction false} SameCount(keys: set<Digest>)
    ensures |set d | d in keys :: BytesText(d)| == |keys|
    decreases |keys|
  {
    if keys != {} {
      var k :| k in keys;
      var rest, all := set d | d in keys - {k} :: BytesText(d), set d | d in keys :: BytesText(d);
      SameCount(keys - {k});
      assert BytesText(k) !in rest by {
        forall d | d in keys - {k} ensures BytesText(d) != BytesText(k) {
          if BytesText(d) == BytesText(k) { TextDecidesDigest(d, k); }
        }
      }
      assert all == rest + {BytesText(k)};
    }
  }

  lemma DigestOrderLists(keys: set<Digest>, texts: set<Id>, names: seq<Id>, order: seq<Digest>)
    requires texts == (set d | d in keys :: BytesText(d)) && Lists(names, texts) && AgentModel.Distinct(names) && |names| == |texts|
    requires |order| == |names| && forall i :: 0 <= i < |names| ==> order[i] == TextBytes(names[i])
    ensures Enumerates(order, keys) && |order| == |keys|
  {
    SameCount(keys);
    forall i | 0 <= i < |names| ensures order[i] in keys && BytesText(order[i]) == names[i] {
      assert names[i] in texts;
      var d :| d in keys && BytesText(d) == names[i];
      BytesRoundTrip(d);
    }
    forall k | k in keys ensures k in order {
      assert BytesText(k) in texts;
      var i :| 0 <= i < |names| && names[i] == BytesText(k);
      BytesRoundTrip(k);
      assert order[i] == k;
    }
  }
}

/** Byte order on strings, sorting and deduplication: what BTreeMap keys and Vec::sort rely on. */
module KeyOrder {
  /** Strict lexicographic order. */
  predicate Below(a: string, b: string) {
    if b == [] then false
    else if a == [] then true
    else a[0] < b[0] || (a[0] == b[0] && Below(a[1..], b[1..]))
  }

  predicate AtMost(a: string, b: string) {
    a == b || Below(a, b)
  }

  lemma {:induction false} BelowIsStrictTotal(a: string, b: string)
    ensures !(Below(a, b) && Below(b, a))
    ensures a == b ==> !Below(a, b)
    ensures a == b || Below(a, b) || Below(b, a)
  {
    if a != [] && b != [] {
      BelowIsStrictTotal(a[1..], b[1..]);
      assert a[0] == b[0] && a[1..] == b[1..] ==> a == [a[0]] + a[1..] && b == [b[0]] + b[1..];
    }
  }

  lemma {:induction false} BelowIsTransitive(a: string, b: string, c: string)
    requires Below(a, b) && Below(b, c)
    ensures Below(a, c)
  {
    if a != [] && a[0] == b[0] && b[0] == c[0] {
      BelowIsTransitive(a[1..], b[1..], c[1..]);
    }
  }

  ghost predicate Ascending(keys: seq<string>) {
    forall i, j :: 0 <= i < j < |keys| ==> Below(keys[i], keys[j])
  }

  ghost predicate Sorted(keys: seq<string>) {
    forall i, j :: 0 <= i < j < |keys| ==> AtMost(keys[i], keys[j])
  }

  function Insert(key: string, keys: seq<string>): (r: seq<string>)
    requires Sorted(keys)
    ensures Sorted(r)
    ensures forall k :: k in r <==> k == key || k in keys
  {
    if keys == [] then [key]
    else if AtMost(key, keys[0]) then
      InsertFront(key, keys);
      [key] + keys
    else
      BelowIsStrictTotal(key, keys[0]);
      var rest := Insert(key, keys[1..]);
      assert forall k :: k in rest ==> k == key || k in keys[1..];
      assert forall i :: 0 <= i < |rest| ==> rest[i] in rest;
      assert forall i :: 0 < i < |keys| ==> AtMost(keys[0], keys[i]);
      [keys[0]] + rest
  }

  lemma InsertFront(key: string, keys: seq<string>)
    requires Sorted(keys) && keys != [] && AtMost(key, keys[0])
    ensures Sorted([key] + keys)
  {
    forall i | 0 <= i < |keys| ensures AtMost(key, keys[i]) {
      if key != keys[0] && i > 0 && keys[0] != keys[i] {
        assert AtMost(keys[0], keys[i]);
        BelowIsTransitive(key, keys[0], keys[i]);
      }
    }
  }

  function Sort(keys: seq<string>): (r: seq<string>)
    ensures Sorted(r)
    ensures forall k :: k in r <==> k in keys
  {
    if keys == [] then [] else Insert(keys[0], Sort(keys[1..]))
  }

  /** Vec::dedup: drops every element equal to the one before it. */
  function Dedup(keys: seq<string>): (r: seq<string>)
    requires Sorted(keys)
    ensures Ascending(r)
    ensures forall k :: k in r <==> k in keys
    ensures keys != [] ==> r != [] && r[0] == keys[0]
  {
    if |keys| <= 1 then keys
    else
      var rest := Dedup(keys[1..]);
      if keys[0] == keys[1] then rest
      else
        DedupFront(keys, rest);
        [keys[0]] + rest
  }

  lemma DedupFront(keys: seq<string>, rest: seq<string>)
    requires |keys| > 1 && Sorted(keys) && keys[0] != keys[1]
    requires forall k :: k in rest ==> k in keys[1..]
    ensures forall i :: 0 <= i < |rest| ==> Below(keys[0], rest[i])
  {
    forall i | 0 <= i < |rest| ensures Below(keys[0], rest[i]) {
      assert rest[i] in keys[1..];
      var j :| 1 <= j < |keys| && keys[j] == rest[i];
      assert AtMost(keys[0], keys[1]) && (j > 1 ==> AtMost(keys[1], keys[j]));
      if j > 1 && keys[1] != keys[j] {
        BelowIsTransitive(keys[0], keys[1], keys[j]);
      }
    }
  }

  /** An ascending sequence is determined by its elements. */
  lemma {:induction false} AscendingIsUnique(a: seq<string>, b: seq<string>)
    requires Ascending(a) && Ascending(b) && forall k :: k in a <==> k in b
    ensures a == b
  {
    assert (a == [] || a[0] in a) && (b == [] || b[0] in b);
    if a != [] {
      assert a[0] in b && b[0] in a;
      var i :| 0 <= i < |b| && b[i] == a[0];
      var j :| 0 <= j < |a| && a[j] == b[0];
      BelowIsStrictTotal(a[0], b[0]);
      assert a[0] == b[0];
      forall k ensures k in a[1..] <==> k in b[1..] {
        BelowIsStrictTotal(a[0], k);
        assert k in a <==> k == a[0] || k in a[1..];
        assert k in b <==> k == b[0] || k in b[1..];
      }
      AscendingIsUnique(a[1..], b[1..]);
    }
  }
}

/**
 * The "ordered map" every keyed collection of the mapper is returned as: a
 * `Record` from key to record, paired with an array of the keys pushed in
 * document order. Every builder is a `forEach` over an array of nodes whose
 * callback either skips the node or assigns `record[key] = value` and pushes
 * `key`; it is modelled once here, generically in the callback.
 */
module OrderedMaps {
  import opened Base
  import opened Tree

  datatype OrderedMap<T> = OrderedMap(entries: map<string, T>, order: seq<string>)

  function Empty<T>(): OrderedMap<T> {
    OrderedMap(map[], [])
  }

  /** `record[key] = value; order.push(key);` */
  function Add<T>(m: OrderedMap<T>, key: string, value: T): OrderedMap<T> {
    OrderedMap(m.entries[key := value], m.order + [key])
  }

  /** The ordered map built by adding the pairs from left to right. Its order
      lists every key as it was pushed, and its keys are exactly the keys in
      the order. */
  function FromPairs<T>(pairs: seq<(string, T)>): (r: OrderedMap<T>)
    ensures |r.order| == |pairs| && forall i :: 0 <= i < |pairs| ==> r.order[i] == pairs[i].0
    ensures forall k :: k in r.entries <==> k in r.order
  {
    if pairs == [] then Empty()
    else
      var init := FromPairs(pairs[..|pairs| - 1]);
      var r := Add(init, pairs[|pairs| - 1].0, pairs[|pairs| - 1].1);
      assert forall i :: 0 <= i < |pairs| - 1 ==> r.order[i] == init.order[i];
      r
  }

  /** A key holds the value of the last pair with that key. */
  lemma {:induction false} FromPairsLastWins<T>(pairs: seq<(string, T)>, i: int)
    requires 0 <= i < |pairs|
    requires forall j :: i < j < |pairs| ==> pairs[j].0 != pairs[i].0
    ensures pairs[i].0 in FromPairs(pairs).entries
    ensures FromPairs(pairs).entries[pairs[i].0] == pairs[i].1
  {
    if i < |pairs| - 1 {
      FromPairsLastWins(pairs[..|pairs| - 1], i);
    }
  }

  predicate DistinctKeys<T>(pairs: seq<(string, T)>) {
    forall i, j :: 0 <= i < j < |pairs| ==> pairs[i].0 != pairs[j].0
  }

  predicate NoDuplicates(s: seq<string>) {
    forall i, j :: 0 <= i < j < |s| ==> s[i] != s[j]
  }

  /** With distinct keys, the order has no duplicates and there are as many
      records as keys in the order. */
  lemma {:induction false} FromPairsDistinct<T>(pairs: seq<(string, T)>)
    requires DistinctKeys(pairs)
    ensures NoDuplicates(FromPairs(pairs).order)
    ensures |FromPairs(pairs).entries| == |FromPairs(pairs).order|
  {
    if pairs != [] {
      var init := pairs[..|pairs| - 1];
      FromPairsDistinct(init);
      var k := pairs[|pairs| - 1].0;
      assert k !in FromPairs(init).order;
      assert k !in FromPairs(init).entries;
      assert FromPairs(pairs).entries.Keys == FromPairs(init).entries.Keys + {k};
    }
  }

  /** A repeated key: the later record overwrites the earlier one while the
      order holds the key twice. */
  lemma DuplicateKey<T>(k: string, first: T, second: T)
    ensures FromPairs([(k, first), (k, second)]) == OrderedMap(map[k := second], [k, k])
  {
    assert [(k, first), (k, second)][..1] == [(k, first)];
  }

  /** The pairs the `forEach` callback produces, in document order: an entry of
      None is a skipped node, and the first failure aborts. */
  function Entries<T>(nodes: seq<Node>, entry: Node -> Result<Option<(string, T)>>): (r: Result<seq<(string, T)>>)
    ensures r.Ok? <==> forall i :: 0 <= i < |nodes| ==> entry(nodes[i]).Ok?
    ensures r.Ok? ==> |r.value| <= |nodes|
  {
    if nodes == [] then Ok([])
    else
      var init :- Entries(nodes[..|nodes| - 1], entry);
      var e :- entry(nodes[|nodes| - 1]);
      Ok(if e.Some? then init + [e.value] else init)
  }

  /** The error is that of the first node whose callback fails. */
  lemma {:induction false} EntriesFirstError<T>(nodes: seq<Node>, entry: Node -> Result<Option<(string, T)>>)
    requires Entries(nodes, entry).Err?
    ensures exists i :: 0 <= i < |nodes| && entry(nodes[i]) == Err(Entries(nodes, entry).error)
                        && forall j :: 0 <= j < i ==> entry(nodes[j]).Ok?
  {
    var init := nodes[..|nodes| - 1];
    if Entries(init, entry).Err? {
      assert Entries(nodes, entry) == Err(Entries(init, entry).error);
      EntriesFirstError(init, entry);
      var i :| 0 <= i < |init| && entry(init[i]) == Err(Entries(init, entry).error)
               && forall j :: 0 <= j < i ==> entry(init[j]).Ok?;
      assert nodes[i] == init[i];
      forall j | 0 <= j < i ensures entry(nodes[j]).Ok? {
        assert nodes[j] == init[j];
      }
    } else {
      var last := |nodes| - 1;
      assert Entries(nodes, entry) == Err(entry(nodes[last]).error);
      forall j | 0 <= j < last ensures entry(nodes[j]).Ok? {
        assert nodes[j] == init[j];
      }
    }
  }

  /** When the callback keeps every node, there is one pair per node, in order. */
  lemma {:induction false} EntriesAllKept<T>(nodes: seq<Node>, entry: Node -> Result<Option<(string, T)>>)
    requires forall i :: 0 <= i < |nodes| ==> entry(nodes[i]).Ok? && entry(nodes[i]).value.Some?
    ensures Entries(nodes, entry).Ok?
    ensures |Entries(nodes, entry).value| == |nodes|
    ensures forall i :: 0 <= i < |nodes| ==> Entries(nodes, entry).value[i] == entry(nodes[i]).value.value
  {
    if nodes != [] {
      var init := nodes[..|nodes| - 1];
      EntriesAllKept(init, entry);
    }
  }

  /** A skipped node contributes nothing. */
  lemma EntriesSkip<T>(nodes: seq<Node>, n: Node, entry: Node -> Result<Option<(string, T)>>)
    requires entry(n) == Ok(None)
    ensures Entries(nodes + [n], entry) == Entries(nodes, entry)
  {
    assert (nodes + [n])[..|nodes|] == nodes;
  }

  /** Once a prefix fails, the whole fails with the same error. */
  lemma {:induction false} EntriesPrefixErr<T>(nodes: seq<Node>, i: nat, entry: Node -> Result<Option<(string, T)>>)
    requires i <= |nodes| && Entries(nodes[..i], entry).Err?
    ensures Entries(nodes, entry) == Entries(nodes[..i], entry)
    decreases |nodes| - i
  {
    if i == |nodes| {
      assert nodes[..i] == nodes;
    } else {
      var init := nodes[..|nodes| - 1];
      assert init[..i] == nodes[..i];
      EntriesPrefixErr(init, i, entry);
    }
  }

  /** The `forEach` over the nodes. */
  function Build<T>(nodes: seq<Node>, entry: Node -> Result<Option<(string, T)>>): Result<OrderedMap<T>> {
    var pairs :- Entries(nodes, entry);
    Ok(FromPairs(pairs))
  }

  /** `if (!raw) return { record: {}, order: [] }; raw.forEach(...)`. */
  function BuildFrom<T>(raw: Option<Node>, entry: Node -> Result<Option<(string, T)>>): (r: Result<OrderedMap<T>>)
    ensures !Truthy(raw) ==> r == Ok(Empty())
    ensures Truthy(raw) && !raw.value.Arr? ==> r == Err(TypeError)
    ensures Truthy(raw) && raw.value.Arr? ==> r == Build(raw.value.items, entry)
  {
    if !Truthy(raw) then Ok(Empty())
    else
      var nodes :- AsArray(raw);
      Build(nodes, entry)
  }

  /** The `forEach` loop itself: the record and the order are updated in
      place, node after node. */
  method BuildLoop<T>(nodes: seq<Node>, entry: Node -> Result<Option<(string, T)>>) returns (r: Result<OrderedMap<T>>)
    ensures r == Build(nodes, entry)
  {
    var record: map<string, T> := map[];
    var order: seq<string> := [];
    ghost var pairs: seq<(string, T)> := [];
    var i := 0;
    while i < |nodes|
      invariant 0 <= i <= |nodes|
      invariant Entries(nodes[..i], entry) == Ok(pairs)
      invariant OrderedMap(record, order) == FromPairs(pairs)
    {
      assert nodes[..i + 1][..i] == nodes[..i];
      var e := entry(nodes[i]);
      if e.Err? {
        EntriesPrefixErr(nodes, i + 1, entry);
        return Err(e.error);
      }
      if e.value.Some? {
        var (key, value) := e.value.value;
        assert (pairs + [(key, value)])[..|pairs|] == pairs;
        record := record[key := value];
        order := order + [key];
        pairs := pairs + [(key, value)];
      }
      i := i + 1;
    }
    assert nodes[..i] == nodes;
    r := Ok(OrderedMap(record, order));
  }

  /** A relation every pair satisfies holds of every stored record. */
  lemma {:induction false} FromPairsAll<T>(pairs: seq<(string, T)>, P: (string, T) -> bool)
    requires forall i :: 0 <= i < |pairs| ==> P(pairs[i].0, pairs[i].1)
    ensures forall k :: k in FromPairs(pairs).entries ==> P(k, FromPairs(pairs).entries[k])
  {
    if pairs != [] {
      FromPairsAll(pairs[..|pairs| - 1], P);
    }
  }

  /** A relation every produced pair satisfies holds of every pair of the fold. */
  lemma {:induction false} EntriesAll<T>(nodes: seq<Node>, entry: Node -> Result<Option<(string, T)>>, P: (string, T) -> bool)
    requires forall n :: entry(n).Ok? && entry(n).value.Some? ==> P(entry(n).value.value.0, entry(n).value.value.1)
    requires Entries(nodes, entry).Ok?
    ensures forall i :: 0 <= i < |Entries(nodes, entry).value| ==> P(Entries(nodes, entry).value[i].0, Entries(nodes, entry).value[i].1)
  {
    if nodes != [] {
      EntriesAll(nodes[..|nodes| - 1], entry, P);
    }
  }

  /** Every record of a built map is stored under a key it agrees with, when
      the callback files every record it produces that way. */
  lemma BuildFromAll<T>(raw: Option<Node>, entry: Node -> Result<Option<(string, T)>>, P: (string, T) -> bool)
    requires forall n :: entry(n).Ok? && entry(n).value.Some? ==> P(entry(n).value.value.0, entry(n).value.value.1)
    requires BuildFrom(raw, entry).Ok?
    ensures forall k :: k in BuildFrom(raw, entry).value.entries ==> P(k, BuildFrom(raw, entry).value.entries[k])
  {
    if Truthy(raw) {
      var nodes := raw.value.items;
      EntriesAll(nodes, entry, P);
      FromPairsAll(Entries(nodes, entry).value, P);
    }
  }

  /** Records paired with the key each is filed under, in order. */
  function Keyed<T>(xs: seq<T>, key: T -> string): (r: seq<(string, T)>)
    ensures |r| == |xs| && forall i :: 0 <= i < |xs| ==> r[i] == (key(xs[i]), xs[i])
  {
    if xs == [] then [] else [(key(xs[0]), xs[0])] + Keyed(xs[1..], key)
  }

  /** The fold reads back the records from their elements, in order, when the
      callback reads back each record from its element under its key. */
  lemma EntriesWriteAll<T>(xs: seq<T>, write: T -> Node, entry: Node -> Result<Option<(string, T)>>, key: T -> string)
    requires forall i :: 0 <= i < |xs| ==> entry(write(xs[i])) == Ok(Some((key(xs[i]), xs[i])))
    ensures Entries(WriteAll(xs, write), entry) == Ok(Keyed(xs, key))
  {
    var nodes := WriteAll(xs, write);
    WriteAllAt(xs, write);
    EntriesAllKept(nodes, entry);
    assert Entries(nodes, entry).value == Keyed(xs, key);
  }

  /** A keyed collection written out element by element is read back as the
      ordered map of its records, filed under their keys in document order. */
  lemma BuildFromWriteAll<T>(xs: seq<T>, write: T -> Node, entry: Node -> Result<Option<(string, T)>>, key: T -> string)
    requires forall i :: 0 <= i < |xs| ==> entry(write(xs[i])) == Ok(Some((key(xs[i]), xs[i])))
    ensures BuildFrom(Some(Arr(WriteAll(xs, write))), entry) == Ok(FromPairs(Keyed(xs, key)))
  {
    EntriesWriteAll(xs, write, entry, key);
  }

  /** `Object.values(record)[0]`: the record of the first key pushed. */
  function FirstValue<T>(m: OrderedMap<T>): Option<T> {
    if m.order != [] && m.order[0] in m.entries then Some(m.entries[m.order[0]]) else None
  }

  /** The first value is the last record stored under the first key. */
  lemma FirstValueFromPairs<T>(pairs: seq<(string, T)>, i: int)
    requires 0 <= i < |pairs| && pairs[i].0 == pairs[0].0
    requires forall j :: i < j < |pairs| ==> pairs[j].0 != pairs[0].0
    ensures FirstValue(FromPairs(pairs)) == Some(pairs[i].1)
  {
    FromPairsLastWins(pairs, i);
  }
}

/**
 * The generic tree an XML parser in the xml2js style hands to the mapper, and
 * the few JavaScript operations the mapper performs on it: property reads,
 * `[0]`, truthiness, `map` over a child array, `flatMap`, `String()` and
 * `Number()`.
 *
 * Convention of the tree: an element is an object whose attributes sit in a
 * bag under the key "$", whose child elements sit under their names, always as
 * arrays, and whose text sits under "value"; an element with text only is a
 * bare string.
 */
module Tree {
  import opened Base

  datatype Node = Str(s: string) | Arr(items: seq<Node>) | Obj(fields: seq<(string, Node)>)

  /** An attribute value as read: None when it is undefined. */
  type Attr = Option<string>

  /** The first field of `fields` named `key`. */
  function Find(fields: seq<(string, Node)>, key: string): Option<Node> {
    if fields == [] then None
    else if fields[0].0 == key then Some(fields[0].1)
    else Find(fields[1..], key)
  }

  /** `Find` answers with the first field of that name, and with nothing
      exactly when no field has that name. */
  lemma {:induction false} FindFirst(fields: seq<(string, Node)>, key: string)
    ensures Find(fields, key).None? <==> forall i :: 0 <= i < |fields| ==> fields[i].0 != key
    ensures Find(fields, key).Some? ==>
              exists i :: 0 <= i < |fields| && fields[i] == (key, Find(fields, key).value)
                          && forall j :: 0 <= j < i ==> fields[j].0 != key
  {
    if fields != [] && fields[0].0 != key {
      var r := Find(fields[1..], key);
      FindFirst(fields[1..], key);
      forall i | 0 <= i < |fields[1..]| ensures fields[i + 1] == fields[1..][i] { }
      if r.Some? {
        var i :| 0 <= i < |fields[1..]| && fields[1..][i] == (key, r.value)
                 && forall j :: 0 <= j < i ==> fields[1..][j].0 != key;
        assert fields[i + 1] == (key, r.value);
        forall j | 0 <= j < i + 1 ensures fields[j].0 != key {
          if j > 0 { assert fields[j] == fields[1..][j - 1]; }
        }
      }
    }
  }

  /** `n[key]` on a defined value: an own key of an object. Strings and arrays
      have none of the keys the mapper reads. */
  function Lookup(n: Node, key: string): Option<Node> {
    match n
    case Obj(fields) => Find(fields, key)
    case _ => None
  }

  /** JavaScript truthiness of a value read from the tree: defined and not the empty string. */
  predicate Truthy(v: Option<Node>) {
    v.Some? && v.value != Str("")
  }

  /** An attribute counts as present when it is defined and not empty. */
  predicate Present(a: Attr) {
    a.Some? && a.value != ""
  }

  /** The pattern `if (x) { r.f = x; }`: keep the attribute only when present. */
  function IfPresent(a: Attr): (r: Attr)
    ensures r.Some? <==> Present(a)
    ensures r.Some? ==> r == a && r.value != ""
  {
    if Present(a) then a else None
  }

  /** `v[key]`: reading a property of undefined is a TypeError. */
  function Get(v: Option<Node>, key: string): (r: Result<Option<Node>>)
    ensures r.Err? <==> v.None?
    ensures r.Ok? ==> r.value == Lookup(v.value, key)
  {
    if v.None? then Err(TypeError) else Ok(Lookup(v.value, key))
  }

  /** `v[0]`: the first element of an array, the first character of a string,
      the key "0" of an object; a TypeError on undefined. */
  function At0(v: Option<Node>): (r: Result<Option<Node>>)
    ensures r.Err? <==> v.None?
    ensures r.Ok? ==> r.value == Index0(v.value)
  {
    if v.None? then Err(TypeError) else Ok(Index0(v.value))
  }

  /** `n[0]` on a defined value. */
  function Index0(n: Node): (r: Option<Node>)
    ensures n.Arr? ==> r == if n.items == [] then None else Some(n.items[0])
  {
    match n
    case Arr(items) => if items == [] then None else Some(items[0])
    case Str(s) => if s == [] then None else Some(Str([s[0]]))
    case Obj(fields) => Find(fields, "0")
  }

  /** The elements `map`, `forEach` and `flatMap` walk over: only an array has them. */
  function AsArray(v: Option<Node>): (r: Result<seq<Node>>)
    ensures r.Ok? <==> v.Some? && v.value.Arr?
    ensures r.Ok? ==> r.value == v.value.items
  {
    if v.Some? && v.value.Arr? then Ok(v.value.items) else Err(TypeError)
  }

  /** The attribute bag `v["$"]` about to be read from: a TypeError when `v`
      or its bag is undefined. */
  function Attrs(v: Option<Node>): (r: Result<Node>)
    ensures r.Ok? <==> v.Some? && Lookup(v.value, "$").Some?
    ensures r.Ok? ==> Some(r.value) == Lookup(v.value, "$")
  {
    if v.None? then Err(TypeError)
    else match Lookup(v.value, "$")
      case None => Err(TypeError)
      case Some(bag) => Ok(bag)
  }

  /** A string read from the tree; any other value reads as undefined (xml2js
      gives attributes string values only). */
  function StrOf(v: Option<Node>): Attr {
    match v
    case Some(Str(s)) => Some(s)
    case _ => None
  }

  /** `bag[name]` for an attribute bag. */
  function AttrIn(bag: Node, name: string): Attr {
    StrOf(Lookup(bag, name))
  }

  /** Reads `n["$"][name]` of a defined node: a TypeError when it has no
      attribute bag. */
  function AttrOf(n: Node, name: string): (r: Result<Attr>)
    ensures r.Err? <==> Lookup(n, "$").None?
    ensures r.Ok? ==> r.value == AttrAt(n, name)
  {
    var bag :- Attrs(Some(n));
    Ok(AttrIn(bag, name))
  }

  /** The attribute `name` of a node, undefined when the node has no bag. */
  function AttrAt(n: Node, name: string): Attr {
    match Lookup(n, "$")
    case Some(bag) => AttrIn(bag, name)
    case None => None
  }

  /** The elements a writer produces for a list of records, one per record, in order. */
  function WriteAll<T>(xs: seq<T>, write: T -> Node): (r: seq<Node>)
    ensures |r| == |xs|
  {
    if xs == [] then [] else [write(xs[0])] + WriteAll(xs[1..], write)
  }

  lemma {:induction false} WriteAllAt<T>(xs: seq<T>, write: T -> Node)
    ensures forall i :: 0 <= i < |xs| ==> WriteAll(xs, write)[i] == write(xs[i])
  {
    if xs != [] {
      WriteAllAt(xs[1..], write);
    }
  }

  /** `map` reads back a list of records from their elements when it reads
      back each record from its element. */
  lemma MapOverWriteAll<T>(xs: seq<T>, write: T -> Node, f: Node -> Result<T>)
    requires forall i :: 0 <= i < |xs| ==> f(write(xs[i])) == Ok(xs[i])
    ensures MapOver(Some(Arr(WriteAll(xs, write))), f) == Ok(xs)
  {
    var items := WriteAll(xs, write);
    WriteAllAt(xs, write);
    assert forall i :: 0 <= i < |items| ==> f(items[i]) == Ok(xs[i]);
    var r := MapAll(items, f);
    assert r.Ok?;
    assert r.value == xs;
  }

  /** An attribute value as a node of the tree, the way an XML reader
      writes it: a string, or nothing at all. */
  function AttrNode(a: Attr): (r: Option<Node>)
    ensures StrOf(r) == a
  {
    if a.Some? then Some(Str(a.value)) else None
  }

  /** The fields of an element whose `names[i]` holds `values[i]`, in that
      order, with the undefined ones left out: how a writer lays out the
      attributes or the children of one element. */
  function Fields(names: seq<string>, values: seq<Option<Node>>): (r: seq<(string, Node)>)
    requires |names| == |values|
    ensures |r| <= |names|
  {
    if names == [] then []
    else
      var rest := Fields(names[1..], values[1..]);
      if values[0].Some? then [(names[0], values[0].value)] + rest else rest
  }

  predicate Distinct(names: seq<string>) {
    forall i, j :: 0 <= i < j < |names| ==> names[i] != names[j]
  }

  /** Each name of a writer's layout reads back the value put under it. */
  lemma {:induction false} FindFields(names: seq<string>, values: seq<Option<Node>>, i: nat)
    requires |names| == |values| && i < |names| && Distinct(names)
    ensures Find(Fields(names, values), names[i]) == values[i]
  {
    var rest := Fields(names[1..], values[1..]);
    if values[0].Some? {
      assert ([(names[0], values[0].value)] + rest)[1..] == rest;
    }
    if i == 0 {
      if values[0].None? {
        FindAbsent(names[1..], values[1..], names[0]);
      }
    } else {
      FindFields(names[1..], values[1..], i - 1);
    }
  }

  /** A name outside a writer's layout reads as undefined. */
  lemma {:induction false} FindAbsent(names: seq<string>, values: seq<Option<Node>>, k: string)
    requires |names| == |values| && forall i :: 0 <= i < |names| ==> names[i] != k
    ensures Find(Fields(names, values), k) == None
  {
    if names != [] {
      FindAbsent(names[1..], values[1..], k);
      var rest := Fields(names[1..], values[1..]);
      if values[0].Some? {
        assert ([(names[0], values[0].value)] + rest)[1..] == rest;
      }
    }
  }

  /** `${v}` in a template literal, for an attribute value. */
  function Show(a: Attr): string {
    if a.Some? then a.value else "undefined"
  }

  /** `String(v)` for a value of the tree. */
  function JsString(v: Option<Node>): string {
    match v
    case None => "undefined"
    case Some(n) => NodeString(n)
  }

  function NodeString(n: Node): string {
    match n
    case Str(s) => s
    case Arr(items) => JoinComma(seq(|items|, i requires 0 <= i < |items| => NodeString(items[i])))
    case Obj(_) => "[object Object]"
  }

  function JoinComma(parts: seq<string>): string {
    if parts == [] then ""
    else if |parts| == 1 then parts[0]
    else parts[0] + "," + JoinComma(parts[1..])
  }

  /** `items.map(f)` where `f` may throw: the first failure, from the left, aborts. */
  function MapAll<T(==)>(items: seq<Node>, f: Node -> Result<T>): (r: Result<seq<T>>)
    ensures r.Ok? <==> forall i :: 0 <= i < |items| ==> f(items[i]).Ok?
    ensures r.Ok? ==> |r.value| == |items| && forall i :: 0 <= i < |items| ==> f(items[i]) == Ok(r.value[i])
    ensures r.Err? ==> exists i :: 0 <= i < |items| && f(items[i]) == Err(r.error)
                                   && forall j :: 0 <= j < i ==> f(items[j]).Ok?
  {
    if items == [] then Ok([])
    else
      var x :- f(items[0]);
      var rest :- MapAll(items[1..], f);
      Ok([x] + rest)
  }

  /** `v.map(f)` on a value read from the tree: a TypeError unless it is an array. */
  function MapOver<T(==)>(v: Option<Node>, f: Node -> Result<T>): (r: Result<seq<T>>)
    ensures !(v.Some? && v.value.Arr?) ==> r == Err(TypeError)
    ensures r.Ok? ==> |r.value| == |v.value.items| && forall i :: 0 <= i < |r.value| ==> f(v.value.items[i]) == Ok(r.value[i])
  {
    var nodes :- AsArray(v);
    MapAll(nodes, f)
  }

  /** The failure of a map is that of the first element that fails. */
  lemma {:induction false} MapAllFirstError<T>(items: seq<Node>, f: Node -> Result<T>, i: nat)
    requires i < |items| && f(items[i]).Err?
    requires forall j :: 0 <= j < i ==> f(items[j]).Ok?
    ensures MapAll(items, f) == Err(f(items[i]).error)
  {
    if i > 0 {
      assert f(items[0]).Ok?;
      forall j | 0 <= j < i - 1 ensures f(items[1..][j]).Ok? {
        assert items[1..][j] == items[j + 1];
      }
      MapAllFirstError(items[1..], f, i - 1);
    }
  }

  /** `h` applied to a successful result; a failure passes through. */
  function Lift<A, B>(r: Result<A>, h: A -> B): Result<B> {
    match r
    case Ok(x) => Ok(h(x))
    case Err(e) => Err(e)
  }

  /** `h` applied to every element of a successful result. */
  function LiftAll<A, B>(r: Result<seq<A>>, h: A -> B): (s: Result<seq<B>>)
    ensures s.Ok? <==> r.Ok?
    ensures s.Ok? ==> |s.value| == |r.value| && forall i :: 0 <= i < |s.value| ==> s.value[i] == h(r.value[i])
  {
    match r
    case Ok(xs) => Ok(seq(|xs|, i requires 0 <= i < |xs| => h(xs[i])))
    case Err(e) => Err(e)
  }

  /** Mapping with a function that post-processes another's results is
      post-processing the other's map. */
  lemma {:induction false} MapAllLift<A, B>(items: seq<Node>, f: Node -> Result<A>, g: Node -> Result<B>, h: A -> B)
    requires forall n :: g(n) == Lift(f(n), h)
    ensures MapAll(items, g) == LiftAll(MapAll(items, f), h)
  {
    if items != [] {
      MapAllLift(items[1..], f, g, h);
      var head := f(items[0]);
      var r := MapAll(items[1..], f);
      if head.Err? {
        assert MapAll(items, g) == Err(head.error);
      } else if r.Err? {
        assert MapAll(items, g) == Err(r.error);
      } else {
        var all := [head.value] + r.value;
        assert MapAll(items, f) == Ok(all);
        var lifted := LiftAll(Ok(all), h).value;
        var rest := LiftAll(r, h).value;
        assert MapAll(items, g) == Ok([h(head.value)] + rest);
        forall i | 0 <= i < |lifted| ensures lifted[i] == ([h(head.value)] + rest)[i] {
          if i > 0 {
            assert all[i] == r.value[i - 1];
          }
        }
        assert lifted == [h(head.value)] + rest;
      }
    }
  }

  /** The same for the guarded map. */
  lemma MapIfPresentLift<A, B>(v: Option<Node>, f: Node -> Result<A>, g: Node -> Result<B>, h: A -> B)
    requires forall n :: g(n) == Lift(f(n), h)
    ensures MapIfPresent(v, g) == LiftAll(MapIfPresent(v, f), h)
  {
    if Truthy(v) && v.value.Arr? {
      MapAllLift(v.value.items, f, g, h);
    }
  }

  /** `v ? v.map(f) : []`, the guarded map the mappers use for optional
      children. */
  function MapIfPresent<T(==)>(v: Option<Node>, f: Node -> Result<T>): (r: Result<seq<T>>)
    ensures !Truthy(v) ==> r == Ok([])
    ensures Truthy(v) && !v.value.Arr? ==> r == Err(TypeError)
    ensures r.Ok? && Truthy(v) ==> |r.value| == |v.value.items|
  {
    if !Truthy(v) then Ok([]) else MapOver(v, f)
  }

  /** `v.map(x => x["$"][name])`: one attribute per element, in order, and a
      TypeError unless `v` is an array whose every element has attributes. */
  function MapAttr(v: Option<Node>, name: string): (r: Result<seq<Attr>>)
    ensures r.Ok? <==> v.Some? && v.value.Arr? && forall i :: 0 <= i < |v.value.items| ==> Lookup(v.value.items[i], "$").Some?
    ensures r.Err? ==> r.error == TypeError
    ensures r.Ok? ==> |r.value| == |v.value.items| && forall i :: 0 <= i < |r.value| ==> r.value[i] == AttrAt(v.value.items[i], name)
  {
    MapOver(v, n => AttrOf(n, name))
  }

  lemma MapIfPresentWriteAll<T>(xs: seq<T>, write: T -> Node, f: Node -> Result<T>)
    requires forall i :: 0 <= i < |xs| ==> f(write(xs[i])) == Ok(xs[i])
    ensures MapIfPresent(Some(Arr(WriteAll(xs, write))), f) == Ok(xs)
  {
    MapOverWriteAll(xs, write, f);
  }

  /** `if (v) { r.f = g(v); }`: the field is attached exactly when the child
      is there, and a failure of `g` is the failure of the whole. */
  function WhenPresent<T>(v: Option<Node>, g: Option<Node> -> Result<T>): (r: Result<Option<T>>)
    ensures !Truthy(v) ==> r == Ok(None)
    ensures Truthy(v) && g(v).Ok? ==> r == Ok(Some(g(v).value))
    ensures Truthy(v) && g(v).Err? ==> r == Err(g(v).error)
  {
    if Truthy(v) then
      var x :- g(v);
      Ok(Some(x))
    else Ok(None)
  }

  /** An optional field is attached exactly when the element has a truthy
      `key` child, and then holds what `g` reads from that child. */
  predicate ReadFrom<T(==)>(x: Option<T>, n: Node, key: string, g: Option<Node> -> Result<T>) {
    && (x.Some? <==> Truthy(Lookup(n, key)))
    && WhenPresent(Lookup(n, key), g) == Ok(x)
  }

  /** What one element contributes to `items.flatMap(obj => obj[key] ?? [obj])`:
      its `key` children when it has them, otherwise itself. */
  function Contribution(n: Node, key: string): seq<Node> {
    match Lookup(n, key)
    case None => [n]
    case Some(Arr(children)) => children
    case Some(other) => [other]
  }

  /** `items.flatMap(obj => obj[key] ?? [obj])`. */
  function FlatMapOr(items: seq<Node>, key: string): seq<Node> {
    if items == [] then [] else Contribution(items[0], key) + FlatMapOr(items[1..], key)
  }

  /** Flattening distributes over concatenation: document order is kept and
      each element's contribution stays in place. */
  lemma {:induction false} FlatMapOrAppend(a: seq<Node>, b: seq<Node>, key: string)
    ensures FlatMapOr(a + b, key) == FlatMapOr(a, key) + FlatMapOr(b, key)
  {
    if a == [] {
      assert a + b == b;
    } else {
      assert (a + b)[0] == a[0];
      assert (a + b)[1..] == a[1..] + b;
      FlatMapOrAppend(a[1..], b, key);
    }
  }

  function SumContributions(items: seq<Node>, key: string): nat {
    if items == [] then 0 else |Contribution(items[0], key)| + SumContributions(items[1..], key)
  }

  /** The flattened list is as long as the contributions together. */
  lemma {:induction false} FlatMapOrLength(items: seq<Node>, key: string)
    ensures |FlatMapOr(items, key)| == SumContributions(items, key)
  {
    if items != [] {
      FlatMapOrLength(items[1..], key);
    }
  }

  /** Elements without `key` contribute themselves, so a list of plain
      elements flattens to itself. */
  lemma {:induction false} FlatMapOrPlain(items: seq<Node>, key: string)
    requires forall i :: 0 <= i < |items| ==> Lookup(items[i], key).None?
    ensures FlatMapOr(items, key) == items
  {
    if items != [] {
      FlatMapOrPlain(items[1..], key);
    }
  }

  /** The result of JavaScript's `Number()` on an attribute. Plain decimal
      digit strings are interpreted; any other text is kept as it is. */
  datatype Number = Decimal(n: nat) | NotDecimal(text: string)

  predicate IsDigit(c: char) { '0' <= c <= '9' }

  predicate IsDigits(s: string) {
    |s| > 0 && forall i :: 0 <= i < |s| ==> IsDigit(s[i])
  }

  function DigitsValue(s: string): nat
    requires forall i :: 0 <= i < |s| ==> IsDigit(s[i])
  {
    if s == [] then 0
    else
      assert IsDigit(s[|s| - 1]);
      10 * DigitsValue(s[..|s| - 1]) + (s[|s| - 1] as int - '0' as int)
  }

  function ToNumber(s: string): (r: Number)
    ensures r.Decimal? <==> IsDigits(s)
    ensures r.NotDecimal? ==> r.text == s
  {
    if IsDigits(s) then Decimal(DigitsValue(s)) else NotDecimal(s)
  }

  /** The decimal text of a natural number. */
  function DecimalText(n: nat): (s: string)
    ensures IsDigits(s)
  {
    if n < 10 then [('0' as int + n) as char]
    else DecimalText(n / 10) + [('0' as int + n % 10) as char]
  }

  /** `Number()` reads back the number whose decimal text it is given. */
  lemma {:induction false} ToNumberDecimalText(n: nat)
    ensures ToNumber(DecimalText(n)) == Decimal(n)
  {
    var s := DecimalText(n);
    if n < 10 {
      assert s[..|s| - 1] == [];
    } else {
      ToNumberDecimalText(n / 10);
      assert s[..|s| - 1] == DecimalText(n / 10);
      assert DigitsValue(DecimalText(n / 10)) == n / 10;
    }
    assert DigitsValue(s) == n;
  }
}

/**
 * The object utilities `path`, `setPath`, `deepClone`, `forEach` and
 * `options`, as their test suite describes them, over a model of JavaScript
 * values. Paths are dotted strings taken apart by `Dotted.Split`.
 */
module ObjectUtils {
  import opened Wrappers
  import opened Dotted

  /** A JavaScript value: `undefined`, `null`, primitives, arrays and plain objects. */
  datatype Json =
    | Undef
    | Null
    | Bool(b: bool)
    | Num(n: int)
    | Str(s: string)
    | Arr(elems: seq<Json>)
    | Obj(fields: map<string, Json>)

  /** Arrays and objects: the only values `typeof` reports as 'object' that are not `null`. */
  predicate IsContainer(v: Json)
  {
    v.Arr? || v.Obj?
  }

  /** JavaScript's falsy values (NaN is not modelled). */
  predicate Falsy(v: Json)
  {
    v.Undef? || v.Null? || v == Bool(false) || v == Num(0) || v == Str("")
  }

  // ----- array indices -------------------------------------------------------

  predicate IsDigit(c: char)
  {
    '0' <= c <= '9'
  }

  /** A canonical array index: decimal digits, no leading zero except for "0" itself. */
  predicate IsIndex(key: string)
  {
    |key| >= 1 && (forall i :: 0 <= i < |key| ==> IsDigit(key[i])) && (key[0] != '0' || |key| == 1)
  }

  /** The value of a string of decimal digits. */
  function DigitsValue(digits: string): (n: nat)
    requires forall i :: 0 <= i < |digits| ==> IsDigit(digits[i])
  {
    if |digits| == 0 then 0
    else
      var last := digits[|digits| - 1];
      assert IsDigit(last);
      assert '0' as int <= last as int;
      DigitsValue(digits[..|digits| - 1]) * 10 + (last as int - '0' as int)
  }

  function ParseIndex(key: string): nat
    requires IsIndex(key)
  {
    DigitsValue(key)
  }

  /** A single digit is the index it denotes. */
  lemma SingleDigitIndex(c: char)
    requires IsDigit(c)
    ensures IsIndex([c]) && ParseIndex([c]) == c as int - '0' as int
  {
    var d := [c];
    assert d[..|d| - 1] == [];
    assert DigitsValue([]) == 0;
    assert DigitsValue(d) == DigitsValue(d[..|d| - 1]) * 10 + (d[|d| - 1] as int - '0' as int);
  }

  // ----- path ----------------------------------------------------------------

  /** `node[key]` when `node` is an object or array that has `key` as an own property. */
  function Child(node: Json, key: string): (r: Option<Json>)
    ensures r.Some? ==> IsContainer(node)
    ensures node.Obj? ==> (r.Some? <==> key in node.fields)
    ensures node.Arr? ==> (r.Some? <==> IsIndex(key) && ParseIndex(key) < |node.elems|)
    ensures r.Some? ==> r.value == if node.Obj? then node.fields[key] else node.elems[ParseIndex(key)]
  {
    match node
    case Obj(f) => if key in f then Some(f[key]) else None
    case Arr(es) => if IsIndex(key) && ParseIndex(key) < |es| then Some(es[ParseIndex(key)]) else None
    case _ => None
  }

  /**
   * The lookup loop of `path`: descend while the current segment is non-empty;
   * the first empty segment ends the walk at the current node, a missing key
   * or a node that is not an object or array gives the default.
   */
  function Lookup(node: Json, segs: seq<string>, default: Json): Json
    decreases |segs|
  {
    if |segs| == 0 || segs[0] == "" then node
    else
      match Child(node, segs[0])
      case Some(c) => Lookup(c, segs[1..], default)
      case None => default
  }

  /** `path(obj, thePath, optionalDefault)`; the default is `undefined` when not given. */
  function Path(obj: Json, thePath: string, default: Json := Undef): Json
  {
    Lookup(obj, Split(thePath), default)
  }

  /** The value at a path of keys that all exist, or None. */
  function Resolve(node: Json, segs: seq<string>): Option<Json>
    decreases |segs|
  {
    if |segs| == 0 then Some(node)
    else
      match Child(node, segs[0])
      case Some(c) => Resolve(c, segs[1..])
      case None => None
  }

  /**
   * On a path of non-empty segments, `path` gives the value at the path when
   * every key exists, and the default otherwise: when a key is missing, or an
   * intermediate value is falsy or not an object.
   */
  lemma {:induction false} LookupResolves(node: Json, segs: seq<string>, default: Json)
    requires forall i :: 0 <= i < |segs| ==> segs[i] != ""
    ensures Lookup(node, segs, default) == (match Resolve(node, segs) case Some(w) => w case None => default)
  {
    if |segs| > 0 {
      match Child(node, segs[0])
      case Some(c) =>
        assert forall i :: 0 <= i < |segs[1..]| ==> segs[1..][i] == segs[i + 1];
        LookupResolves(c, segs[1..], default);
      case None =>
    }
  }

  lemma PathResolves(obj: Json, segs: seq<string>, default: Json)
    requires |segs| >= 1 && NoDots(segs)
    requires forall i :: 0 <= i < |segs| ==> segs[i] != ""
    ensures Path(obj, Join(segs), default) == (match Resolve(obj, segs) case Some(w) => w case None => default)
  {
    SplitJoin(segs);
    LookupResolves(obj, segs, default);
  }

  /** Descending into a falsy or non-object value gives the default. */
  lemma {:induction false} LookupThroughPrimitive(node: Json, prefix: seq<string>, key: string, rest: seq<string>, default: Json)
    requires forall i :: 0 <= i < |prefix| ==> prefix[i] != ""
    requires key != ""
    requires match Resolve(node, prefix) case Some(w) => !IsContainer(w) case None => false
    ensures Lookup(node, prefix + [key] + rest, default) == default
  {
    var segs := prefix + [key] + rest;
    if |prefix| == 0 {
      assert segs[0] == key && segs[1..] == rest;
    } else {
      assert segs[0] == prefix[0];
      assert segs[1..] == prefix[1..] + [key] + rest;
      var c := Child(node, prefix[0]).value;
      LookupThroughPrimitive(c, prefix[1..], key, rest, default);
    }
  }

  /** In particular, descending into `null`, `undefined`, `false`, `0` or `''` gives the default. */
  lemma LookupThroughFalsy(node: Json, prefix: seq<string>, key: string, rest: seq<string>, default: Json)
    requires forall i :: 0 <= i < |prefix| ==> prefix[i] != ""
    requires key != ""
    requires match Resolve(node, prefix) case Some(w) => Falsy(w) case None => false
    ensures Lookup(node, prefix + [key] + rest, default) == default
  {
    LookupThroughPrimitive(node, prefix, key, rest, default);
  }

  /** The walk stops at the first empty segment: whatever follows it is ignored. */
  lemma {:induction false} LookupStopsAtEmpty(node: Json, segs: seq<string>, rest: seq<string>, default: Json)
    requires |rest| >= 1 && rest[0] == ""
    ensures Lookup(node, segs + rest, default) == Lookup(node, segs, default)
  {
    var all := segs + rest;
    if |segs| == 0 {
      assert all == rest;
    } else if segs[0] != "" {
      assert all[0] == segs[0];
      assert all[1..] == segs[1..] + rest;
      match Child(node, segs[0])
      case Some(c) => LookupStopsAtEmpty(c, segs[1..], rest, default);
      case None =>
    }
  }

  /** `path(obj, p + '.' + q)` equals `path(obj, p)` when `q` begins with an empty segment ('zero.', 'one..'). */
  lemma PathIgnoresAfterEmpty(obj: Json, p: string, q: string, default: Json)
    requires q == "" || q[0] == '.'
    ensures Path(obj, p + "." + q, default) == Path(obj, p, default)
  {
    SplitAppend(p, q);
    if q != "" {
      assert q == "" + "." + q[1..];
      SplitAppend("", q[1..]);
    }
    LookupStopsAtEmpty(obj, Split(p), Split(q), default);
  }

  /** The empty path and the path '.' give the object itself. */
  lemma PathOfEmpty(obj: Json, default: Json)
    ensures Path(obj, "", default) == obj
    ensures Path(obj, ".", default) == obj
  {
    assert Split(".") == ["", ""] by {
      assert "."[1..] == "";
    }
  }

  // ----- setPath -------------------------------------------------------------

  /** Why `setPath` cannot complete. */
  datatype SetError =
    | NotAnObject    // a property of a primitive is written: JavaScript throws
    | ArrayProperty  // a non-index property of an array is written: not represented here

  function Nulls(n: nat): (r: seq<Json>)
    ensures |r| == n && forall i :: 0 <= i < n ==> r[i] == Null
  {
    seq(n, _ => Null)
  }

  /** `node[key] = value`; an array written past its end is padded with `null`. */
  function Put(node: Json, key: string, value: Json): (r: Result<Json, SetError>)
    ensures r.Ok? <==> node.Obj? || (node.Arr? && IsIndex(key))
    ensures r.Ok? ==> r.value.Arr? == node.Arr? && r.value.Obj? == node.Obj?
    ensures r.Ok? ==> Child(r.value, key) == Some(value)
  {
    match node
    case Obj(f) => Ok(Obj(f[key := value]))
    case Arr(es) =>
      if !IsIndex(key) then Err(ArrayProperty)
      else
        var k := ParseIndex(key);
        if k < |es| then Ok(Arr(es[k := value])) else Ok(Arr(es + Nulls(k - |es|) + [value]))
    case _ => Err(NotAnObject)
  }

  /** The container created for a missing intermediate: an array when the next segment is an index. */
  function EmptyFor(nextSegment: string): Json
  {
    if IsIndex(nextSegment) then Arr([]) else Obj(map[])
  }

  /**
   * The walk of `setPath`: every segment but the last names an intermediate
   * container, which is replaced by a fresh one (see EmptyFor) when it is
   * missing, falsy or not an object; the last segment is assigned the value.
   * An empty segment is the key ''.
   */
  function Assign(node: Json, segs: seq<string>, value: Json): Result<Json, SetError>
    requires |segs| >= 1
    decreases |segs|
  {
    if |segs| == 1 then Put(node, segs[0], value)
    else
      var existing := Child(node, segs[0]);
      var next := if existing.Some? && IsContainer(existing.value) then existing.value else EmptyFor(segs[1]);
      match Assign(next, segs[1..], value)
      case Ok(inner) => Put(node, segs[0], inner)
      case Err(e) => Err(e)
  }

  /** `setPath(obj, path, value)`: the new value of `obj`. */
  function SetPath(obj: Json, path: string, value: Json): Result<Json, SetError>
  {
    Assign(obj, Split(path), value)
  }

  /**
   * Writing array index k: slots before the old end keep their values (except
   * k itself), slots between the old end and k become `null`, slot k holds the value.
   */
  lemma PutIndexPads(es: seq<Json>, key: string, value: Json)
    requires IsIndex(key)
    ensures var k := ParseIndex(key);
      var r := Put(Arr(es), key, value);
      && r.Ok? && r.value.Arr?
      && |r.value.elems| == (if k < |es| then |es| else k + 1)
      && r.value.elems[k] == value
      && (forall i :: 0 <= i < |es| && i != k ==> r.value.elems[i] == es[i])
      && (forall i :: |es| <= i < k ==> r.value.elems[i] == Null)
  {
    var k := ParseIndex(key);
    if k >= |es| {
      var r := es + Nulls(k - |es|) + [value];
      assert forall i :: |es| <= i < k ==> r[i] == Nulls(k - |es|)[i - |es|];
    }
  }

  /**
   * Reading back what `setPath` wrote, key by key: every segment, an empty one
   * included, names the property written, so resolving the same segments on
   * the new value finds the value.
   */
  lemma {:induction false} AssignThenResolve(node: Json, segs: seq<string>, value: Json)
    requires |segs| >= 1
    requires Assign(node, segs, value).Ok?
    ensures Resolve(Assign(node, segs, value).value, segs) == Some(value)
    decreases |segs|
  {
    if |segs| > 1 {
      var existing := Child(node, segs[0]);
      var next := if existing.Some? && IsContainer(existing.value) then existing.value else EmptyFor(segs[1]);
      AssignThenResolve(next, segs[1..], value);
    }
  }

  /**
   * Reading back what `setPath` wrote with `path`: along a path of non-empty
   * segments the new value is found at the path.
   */
  lemma AssignThenLookup(node: Json, segs: seq<string>, value: Json, default: Json)
    requires |segs| >= 1
    requires forall i :: 0 <= i < |segs| ==> segs[i] != ""
    requires Assign(node, segs, value).Ok?
    ensures Lookup(Assign(node, segs, value).value, segs, default) == value
  {
    AssignThenResolve(node, segs, value);
    LookupResolves(Assign(node, segs, value).value, segs, default);
  }

  lemma SetPathThenPath(obj: Json, segs: seq<string>, value: Json, default: Json)
    requires |segs| >= 1 && NoDots(segs)
    requires forall i :: 0 <= i < |segs| ==> segs[i] != ""
    requires SetPath(obj, Join(segs), value).Ok?
    ensures Path(SetPath(obj, Join(segs), value).value, Join(segs), default) == value
  {
    SplitJoin(segs);
    AssignThenLookup(obj, segs, value, default);
  }

  /** `setPath` on an object root changes only the key of the first segment. */
  lemma AssignObjectFrame(f: map<string, Json>, segs: seq<string>, value: Json)
    requires |segs| >= 1
    requires Assign(Obj(f), segs, value).Ok?
    ensures var g := Assign(Obj(f), segs, value).value;
      && g.Obj?
      && g.fields.Keys == f.Keys + {segs[0]}
      && forall k :: k in f && k != segs[0] ==> g.fields[k] == f[k]
  {
  }

  /**
   * The kind of container `setPath` makes for a missing (or falsy, or
   * non-object) intermediate is an array exactly when the next segment is an index.
   */
  lemma AssignCreatesContainer(node: Json, segs: seq<string>, value: Json)
    requires |segs| >= 2
    requires match Child(node, segs[0]) case Some(c) => !IsContainer(c) case None => true
    requires Assign(node, segs, value).Ok?
    ensures Child(Assign(node, segs, value).value, segs[0]).Some?
    ensures var c := Child(Assign(node, segs, value).value, segs[0]).value;
      c.Arr? == IsIndex(segs[1]) && c.Obj? == !IsIndex(segs[1])
  {
    AssignKeepsKind(EmptyFor(segs[1]), segs[1..], value);
  }

  /**
   * Through an existing container, `setPath` writes into it instead of
   * replacing it: the child at the first segment is the old child with the
   * rest of the path written into it.
   */
  lemma AssignDescends(node: Json, segs: seq<string>, value: Json)
    requires |segs| >= 2
    requires Child(node, segs[0]).Some? && IsContainer(Child(node, segs[0]).value)
    requires Assign(node, segs, value).Ok?
    ensures Assign(Child(node, segs[0]).value, segs[1..], value).Ok?
    ensures Child(Assign(node, segs, value).value, segs[0]) ==
      Some(Assign(Child(node, segs[0]).value, segs[1..], value).value)
  {
  }

  /** `setPath` returns a container of the kind it was given. */
  lemma AssignKeepsKind(node: Json, segs: seq<string>, value: Json)
    requires |segs| >= 1
    requires Assign(node, segs, value).Ok?
    ensures Assign(node, segs, value).value.Arr? == node.Arr?
    ensures Assign(node, segs, value).value.Obj? == node.Obj?
  {
  }

  /** The empty path writes the key '' of the root. */
  lemma SetPathEmptyKey(f: map<string, Json>, value: Json)
    ensures SetPath(Obj(f), "", value) == Ok(Obj(f["" := value]))
  {
  }

  // ----- deepClone -----------------------------------------------------------

  /** `deepClone(v)`: a copy built node by node; `null` and `undefined` come back as they are. */
  function DeepClone(v: Json): (r: Json)
    ensures r == v
  {
    match v
    case Arr(es) =>
      var copy := seq(|es|, i requires 0 <= i < |es| => DeepClone(es[i]));
      assert copy == es;
      Arr(copy)
    case Obj(f) =>
      var copy := map k | k in f :: DeepClone(f[k]);
      assert copy == f;
      Obj(copy)
    case _ => v
  }

  // ----- forEach -------------------------------------------------------------

  /** The key an iterator function receives: an array index or an object key. */
  datatype Key = Index(i: nat) | Name(name: string)

  /** One call `iteratorFunction(value, key, container)`. */
  datatype Call = Call(value: Json, key: Key, container: Json)

  /**
   * `forEach(container, iteratorFunction)`: the calls made, in order. Arrays
   * are visited by ascending index, objects once per own key.
   */
  method ForEach(container: Json) returns (calls: seq<Call>)
    requires IsContainer(container)
    ensures container.Arr? ==> ElementCalls(container, calls)
    ensures container.Obj? ==> EntryCalls(container, calls)
  {
    if container.Arr? {
      calls := ForEachElement(container);
    } else {
      calls := ForEachEntry(container);
    }
  }

  /** One call per element, by ascending index. */
  ghost predicate ElementCalls(container: Json, calls: seq<Call>)
    requires container.Arr?
  {
    && |calls| == |container.elems|
    && forall i :: 0 <= i < |calls| ==> calls[i] == Call(container.elems[i], Index(i), container)
  }

  /** One call per own key, each with that key's value. */
  ghost predicate EntryCalls(container: Json, calls: seq<Call>)
    requires container.Obj?
  {
    && |calls| == |container.fields|
    && (forall i :: 0 <= i < |calls| ==> IsEntryCall(container, calls[i]))
    && (forall k :: k in container.fields ==> Name(k) in KeysOf(calls))
    && (forall i, j :: 0 <= i < j < |calls| ==> calls[i].key != calls[j].key)
  }

  ghost predicate IsEntryCall(container: Json, call: Call)
    requires container.Obj?
  {
    call.key.Name? && call.key.name in container.fields
    && call == Call(container.fields[call.key.name], call.key, container)
  }

  ghost function KeysOf(calls: seq<Call>): set<Key>
  {
    set i | 0 <= i < |calls| :: calls[i].key
  }

  lemma KeysOfAppend(calls: seq<Call>, call: Call)
    ensures KeysOf(calls + [call]) == KeysOf(calls) + {call.key}
  {
    var all := calls + [call];
    forall x | x in KeysOf(all) ensures x in KeysOf(calls) + {call.key} {
      var i :| 0 <= i < |all| && all[i].key == x;
      if i < |calls| { assert calls[i].key == x; }
    }
    forall x | x in KeysOf(calls) ensures x in KeysOf(all) {
      var i :| 0 <= i < |calls| && calls[i].key == x;
      assert all[i].key == x;
    }
    assert all[|calls|].key == call.key;
  }

  method ForEachElement(container: Json) returns (calls: seq<Call>)
    requires container.Arr?
    ensures ElementCalls(container, calls)
  {
    var es := container.elems;
    calls := [];
    var i := 0;
    while i < |es|
      invariant 0 <= i <= |es|
      invariant |calls| == i
      invariant forall j :: 0 <= j < i ==> calls[j] == Call(es[j], Index(j), container)
    {
      calls := calls + [Call(es[i], Index(i), container)];
      i := i + 1;
    }
  }

  method ForEachEntry(container: Json) returns (calls: seq<Call>)
    requires container.Obj?
    ensures EntryCalls(container, calls)
  {
    var f := container.fields;
    calls := [];
    var remaining := f.Keys;
    ghost var visited: set<string> := {};
    while remaining != {}
      invariant remaining + visited == f.Keys && remaining !! visited
      invariant VisitedEntries(container, calls, visited)
      decreases |remaining|
    {
      var k :| k in remaining;
      VisitEntry(container, calls, visited, k);
      calls := calls + [Call(f[k], Name(k), container)];
      remaining := remaining - {k};
      visited := visited + {k};
    }
    EntriesVisited(container, calls);
  }

  /** The loop invariant of ForEachEntry: one call per visited key, and no other. */
  ghost predicate VisitedEntries(container: Json, calls: seq<Call>, visited: set<string>)
    requires container.Obj?
  {
    && |calls| == |visited|
    && (forall i :: 0 <= i < |calls| ==> IsEntryCall(container, calls[i]))
    && KeysOf(calls) == (set k | k in visited :: Name(k))
    && (forall i, j :: 0 <= i < j < |calls| ==> calls[i].key != calls[j].key)
  }

  lemma VisitEntry(container: Json, calls: seq<Call>, visited: set<string>, k: string)
    requires container.Obj? && k in container.fields && k !in visited
    requires VisitedEntries(container, calls, visited)
    ensures VisitedEntries(container, calls + [Call(container.fields[k], Name(k), container)], visited + {k})
  {
    var call := Call(container.fields[k], Name(k), container);
    var all := calls + [call];
    KeysOfAppend(calls, call);
    assert Name(k) !in KeysOf(calls);
    forall i, j | 0 <= i < j < |all| ensures all[i].key != all[j].key {
      if j == |calls| {
        assert all[i].key in KeysOf(calls) by { assert calls[i] == all[i]; }
      } else {
        assert all[i] == calls[i] && all[j] == calls[j];
      }
    }
    assert (set x | x in visited + {k} :: Name(x)) == (set x | x in visited :: Name(x)) + {Name(k)};
  }

  lemma EntriesVisited(container: Json, calls: seq<Call>)
    requires container.Obj?
    requires VisitedEntries(container, calls, container.fields.Keys)
    ensures EntryCalls(container, calls)
  {
    assert |container.fields| == |container.fields.Keys|;
    forall k | k in container.fields ensures Name(k) in KeysOf(calls) {
      assert Name(k) in (set x | x in container.fields.Keys :: Name(x));
    }
  }

  /** Every own property is passed to the iterator function as `(value, key, object)`. */
  lemma EntryCallsInclude(container: Json, calls: seq<Call>, k: string)
    requires container.Obj? && k in container.fields
    requires EntryCalls(container, calls)
    ensures Call(container.fields[k], Name(k), container) in calls
  {
    var i :| 0 <= i < |calls| && calls[i].key == Name(k);
    assert IsEntryCall(container, calls[i]);
  }

  // ----- options -------------------------------------------------------------

  /**
   * `options(optionalOptions, defaults)`: the defaults, overridden key by key
   * by the given options; `null` or `undefined` options give the defaults.
   */
  function Options(optionalOptions: Json, defaults: Json): (r: Json)
    requires defaults.Obj?
    requires optionalOptions.Obj? || optionalOptions.Null? || optionalOptions.Undef?
    ensures r.Obj?
    ensures r.fields.Keys == defaults.fields.Keys + (if optionalOptions.Obj? then optionalOptions.fields.Keys else {})
    ensures optionalOptions.Obj? ==>
      forall k :: k in optionalOptions.fields ==> r.fields[k] == optionalOptions.fields[k]
    ensures forall k :: k in defaults.fields && !(optionalOptions.Obj? && k in optionalOptions.fields) ==>
      r.fields[k] == defaults.fields[k]
  {
    if optionalOptions.Obj? then Obj(defaults.fields + optionalOptions.fields) else defaults
  }

  /** Applying the same options twice is the same as applying them once. */
  lemma OptionsIdempotent(optionalOptions: Json, defaults: Json)
    requires defaults.Obj?
    requires optionalOptions.Obj? || optionalOptions.Null? || optionalOptions.Undef?
    ensures Options(optionalOptions, Options(optionalOptions, defaults)) == Options(optionalOptions, defaults)
  {
    var once := Options(optionalOptions, defaults);
    var twice := Options(optionalOptions, once);
    assert twice.fields.Keys == once.fields.Keys;
    assert forall k :: k in once.fields ==> twice.fields[k] == once.fields[k];
  }

  /** A single option is read back from the result, and a missing one falls back to its default. */
  lemma OptionsPath(optionalOptions: Json, defaults: Json, key: string, default: Json)
    requires defaults.Obj? && optionalOptions.Obj?
    requires key != "" && '.' !in key
    ensures Path(Options(optionalOptions, defaults), key, default) ==
      if key in optionalOptions.fields then optionalOptions.fields[key] else Path(defaults, key, default)
  {
    PathOfKey(Options(optionalOptions, defaults), key, default);
    PathOfKey(defaults, key, default);
  }

  /** A path of one non-empty key reads that own property. */
  lemma PathOfKey(obj: Json, key: string, default: Json)
    requires key != "" && '.' !in key
    ensures Path(obj, key, default) == match Child(obj, key) case Some(c) => c case None => default
  {
    SplitNoDot(key);
    assert [key][1..] == [];
    match Child(obj, key)
    case Some(c) =>
      assert Lookup(c, [], default) == c;
      assert Lookup(obj, [key], default) == c;
    case None =>
  }
}

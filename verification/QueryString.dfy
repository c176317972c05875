/** Query strings: the printers (strictly encoded pairs, and `buildQuery` in `src/lib/headless-dispatch.ts`)
  * and the reader (`split_query`, `query_param_decoded` in `src-tauri/src/headless_main.rs`). */
module QueryString {
  import opened Optional
  import opened Utf8
  import opened PercentCodec
  import opened Scan

  datatype Param = Param(name: Bytes, value: Bytes)

  const AMP: Byte := 0x26
  const EQUALS: Byte := 0x3D
  const QUESTION: Byte := 0x3F

  // ---------------------------------------------------------------------
  // Splitting
  // ---------------------------------------------------------------------

  /** The part before the first c, and the part after it (empty when there is no c). */
  function SplitOnce(s: Bytes, c: Byte): (Bytes, Bytes) {
    var i := IndexOf(s, c);
    if i < |s| then (s[..i], s[i + 1..]) else (s, [])
  }

  function Split(s: Bytes, c: Byte): (r: seq<Bytes>)
    ensures |r| > 0
    decreases |s|
  {
    var i := IndexOf(s, c);
    if i < |s| then [s[..i]] + Split(s[i + 1..], c) else [s]
  }

  lemma SplitJoined(a: Bytes, c: Byte, b: Bytes)
    requires c !in a
    ensures SplitOnce(a + [c] + b, c) == (a, b)
    ensures Split(a + [c] + b, c) == [a] + Split(b, c)
  {
    IndexOfJoined(a, c, b);
    assert (a + [c] + b)[..|a|] == a && (a + [c] + b)[|a| + 1..] == b;
  }

  lemma SplitNone(s: Bytes, c: Byte)
    requires c !in s
    ensures SplitOnce(s, c) == (s, []) && Split(s, c) == [s]
  {}

  /** `split_query`: cut at the first `?`. */
  function SplitQuery(raw: Bytes): (Bytes, Bytes) { SplitOnce(raw, QUESTION) }

  // ---------------------------------------------------------------------
  // Reading
  // ---------------------------------------------------------------------

  /** The first pair whose decoded name is `key`. */
  function LookupIn(pairs: seq<Bytes>, key: Bytes): Option<Bytes> {
    if pairs == [] then None
    else
      var (k, v) := SplitOnce(pairs[0], EQUALS);
      if Decode(k) == key then Some(Decode(v)) else LookupIn(pairs[1..], key)
  }

  function Lookup(query: Bytes, key: Bytes): Option<Bytes> { LookupIn(Split(query, AMP), key) }

  /** `query_param_decoded`. */
  method QueryParamDecoded(query: Bytes, key: Bytes) returns (r: Option<Bytes>)
    ensures r == Lookup(query, key)
  {
    var pairs := Split(query, AMP);
    for i := 0 to |pairs|
      invariant LookupIn(pairs, key) == LookupIn(pairs[i..], key)
    {
      assert pairs[i..][1..] == pairs[i + 1..];
      var (k, v) := SplitOnce(pairs[i], EQUALS);
      var name := PercentDecode(k);
      if name == key {
        var value := PercentDecode(v);
        return Some(value);
      }
    }
    return None;
  }

  /** The reader on any text: a pair without = is a name with an empty value, the first = splits name and value, and
    * of several pairs the first that matches is taken. */
  lemma ReaderLaws(name: Bytes, value: Bytes, rest: Bytes, key: Bytes)
    requires AMP !in name && EQUALS !in name && AMP !in value
    ensures Lookup(name, key) == if Decode(name) == key then Some([]) else None
    ensures Lookup(name + [EQUALS] + value, key) == if Decode(name) == key then Some(Decode(value)) else None
    ensures var pair := name + [EQUALS] + value;
            Lookup(pair + [AMP] + rest, key) == if Lookup(pair, key).Some? then Lookup(pair, key) else Lookup(rest, key)
    ensures Lookup(name + [AMP] + rest, key) == if Lookup(name, key).Some? then Lookup(name, key) else Lookup(rest, key)
  {
    var pair := name + [EQUALS] + value;
    assert Decode([]) == [];
    LookupSplit(name, rest, key);
    LookupSplit(pair, rest, key);
    SplitNone(name, EQUALS);
    SplitJoined(name, EQUALS, value);
  }

  lemma LookupSplit(pair: Bytes, rest: Bytes, key: Bytes)
    requires AMP !in pair
    ensures Lookup(pair, key) == var (k, v) := SplitOnce(pair, EQUALS); if Decode(k) == key then Some(Decode(v)) else None
    ensures Lookup(pair + [AMP] + rest, key) == if Lookup(pair, key).Some? then Lookup(pair, key) else Lookup(rest, key)
  {
    SplitNone(pair, AMP);
    SplitJoined(pair, AMP, rest);
    assert [pair][1..] == [] && ([pair] + Split(rest, AMP))[1..] == Split(rest, AMP);
    assert LookupIn([pair][1..], key) == None;
  }

  // ---------------------------------------------------------------------
  // Printing
  // ---------------------------------------------------------------------

  function PrintParam(es: EncodeSet, p: Param): Bytes {
    Encode(es, p.name) + [EQUALS] + Encode(es, p.value)
  }

  function PrintQuery(es: EncodeSet, params: seq<Param>): Bytes {
    if params == [] then []
    else if |params| == 1 then PrintParam(es, params[0])
    else PrintParam(es, params[0]) + [AMP] + PrintQuery(es, params[1..])
  }

  /** The reference: the value of the first parameter with the given name. */
  function FirstMatch(params: seq<Param>, key: Bytes): Option<Bytes> {
    if params == [] then None
    else if params[0].name == key then Some(params[0].value)
    else FirstMatch(params[1..], key)
  }

  ghost predicate AllValid(params: seq<Param>) {
    forall i :: 0 <= i < |params| ==> Valid(params[i].name) && Valid(params[i].value)
  }

  /** The parameters as the reader sees them. */
  function Seen(es: EncodeSet, params: seq<Param>): (r: seq<Param>)
    ensures |r| == |params|
  {
    if params == [] then []
    else [Param(ReadBack(es, params[0].name), ReadBack(es, params[0].value))] + Seen(es, params[1..])
  }

  lemma ParamIsOnePair(es: EncodeSet, p: Param)
    ensures AMP !in PrintParam(es, p)
    ensures SplitOnce(PrintParam(es, p), EQUALS) == (Encode(es, p.name), Encode(es, p.value))
  {
    var k, v := Encode(es, p.name), Encode(es, p.value);
    if AMP in k { EncodedBytes(es, p.name, AMP); }
    if AMP in v { EncodedBytes(es, p.value, AMP); }
    if EQUALS in k { EncodedBytes(es, p.name, EQUALS); }
    SplitJoined(k, EQUALS, v);
  }

  lemma LookupOne(es: EncodeSet, p: Param, rest: seq<Bytes>, key: Bytes)
    requires Valid(p.name) && Valid(p.value)
    ensures LookupIn([PrintParam(es, p)] + rest, key) ==
            if ReadBack(es, p.name) == key then Some(ReadBack(es, p.value)) else LookupIn(rest, key)
  {
    ParamIsOnePair(es, p);
    DecodeEncode(es, p.name);
    DecodeEncode(es, p.value);
    assert ([PrintParam(es, p)] + rest)[1..] == rest;
  }

  lemma {:induction false} LookupPrinted(es: EncodeSet, params: seq<Param>, key: Bytes)
    requires AllValid(params) && params != []
    ensures Lookup(PrintQuery(es, params), key) == FirstMatch(Seen(es, params), key)
  {
    var p, rest := params[0], params[1..];
    ParamIsOnePair(es, p);
    if |params| == 1 {
      SplitNone(PrintParam(es, p), AMP);
      LookupOne(es, p, [], key);
      assert [PrintParam(es, p)] + [] == [PrintParam(es, p)];
    } else {
      SplitJoined(PrintParam(es, p), AMP, PrintQuery(es, rest));
      LookupOne(es, p, Split(PrintQuery(es, rest), AMP), key);
      LookupPrinted(es, rest, key);
    }
  }

  lemma {:induction false} SeenIsIdentity(es: EncodeSet, params: seq<Param>)
    requires es != Form
    ensures Seen(es, params) == params
  {
    if params != [] {
      SeenIsIdentity(es, params[1..]);
    }
  }

  /** A query printed with the strict encoder reads back exactly: the first value whose name matches, or nothing.
    * The one exception is the empty list, whose text reads as one empty pair. */
  lemma StrictQueryRoundTrip(params: seq<Param>, key: Bytes)
    requires AllValid(params)
    ensures Lookup(PrintQuery(PathSegment, params), key) == FirstMatch(params, key) <==> params != [] || key != []
  {
    if params != [] {
      LookupPrinted(PathSegment, params, key);
      SeenIsIdentity(PathSegment, params);
    } else {
      EmptyQuery(key);
    }
  }

  lemma EmptyQuery(key: Bytes)
    ensures Lookup([], key) == if key == [] then Some([]) else None
  {
    var pairs := Split([], AMP);
    assert pairs == [[]] && SplitOnce(pairs[0], EQUALS) == ([], []);
    assert Decode([]) == [] && LookupIn(pairs[1..], key) == None;
  }

  // ---------------------------------------------------------------------
  // buildQuery
  // ---------------------------------------------------------------------

  function Without(params: seq<Param>, name: Bytes): seq<Param> {
    if params == [] then []
    else (if params[0].name == name then [] else [params[0]]) + Without(params[1..], name)
  }

  /** `URLSearchParams.set`: overwrite the first parameter of that name and drop the others, or append. */
  function SetParam(params: seq<Param>, name: Bytes, value: Bytes): seq<Param> {
    if params == [] then [Param(name, value)]
    else if params[0].name == name then [Param(name, value)] + Without(params[1..], name)
    else [params[0]] + SetParam(params[1..], name, value)
  }

  /** A route's constant parameters, and its argument-to-parameter passthrough. */
  datatype Route = Route(queryConst: seq<Param>, query: seq<(string, Bytes)>)

  /** The `set` calls `buildQuery` makes: the constants, then each declared argument that is present. */
  function Sets(route: Route, args: map<string, Bytes>): seq<Param> {
    route.queryConst + Passthrough(route.query, args)
  }

  function Passthrough(query: seq<(string, Bytes)>, args: map<string, Bytes>): seq<Param> {
    if query == [] then []
    else
      var (arg, name) := query[|query| - 1];
      Passthrough(query[..|query| - 1], args) + if arg in args then [Param(name, args[arg])] else []
  }

  function Applied(sets: seq<Param>): seq<Param> {
    if sets == [] then []
    else SetParam(Applied(sets[..|sets| - 1]), sets[|sets| - 1].name, sets[|sets| - 1].value)
  }

  /** The reference: the value of the last `set` call for a name. */
  function LastSet(sets: seq<Param>, name: Bytes): Option<Bytes> {
    if sets == [] then None
    else if sets[|sets| - 1].name == name then Some(sets[|sets| - 1].value)
    else LastSet(sets[..|sets| - 1], name)
  }

  /** `buildQuery`; an absent or null argument is a missing key of `args`. */
  method BuildQuery(route: Route, args: map<string, Bytes>) returns (text: Bytes)
    ensures text == var ps := Applied(Sets(route, args)); if ps == [] then [] else [QUESTION] + PrintQuery(Form, ps)
  {
    var qs: seq<Param> := [];
    for i := 0 to |route.queryConst|
      invariant qs == Applied(route.queryConst[..i])
    {
      assert route.queryConst[..i + 1][..i] == route.queryConst[..i];
      qs := SetParam(qs, route.queryConst[i].name, route.queryConst[i].value);
    }
    assert route.queryConst[..|route.queryConst|] == route.queryConst == route.queryConst + [];
    for i := 0 to |route.query|
      invariant qs == Applied(route.queryConst + Passthrough(route.query[..i], args))
    {
      assert route.query[..i + 1][..i] == route.query[..i];
      var (arg, name) := route.query[i];
      if arg in args {
        AppliedSnoc(route.queryConst + Passthrough(route.query[..i], args), Param(name, args[arg]));
        qs := SetParam(qs, name, args[arg]);
      }
      PassthroughSnoc(route, args, i);
    }
    assert route.query[..|route.query|] == route.query;
    PrintedNonEmpty(Form, qs);
    var s := PrintQuery(Form, qs);
    text := if s != [] then [QUESTION] + s else [];
  }

  lemma AppliedSnoc(sets: seq<Param>, p: Param)
    ensures Applied(sets + [p]) == SetParam(Applied(sets), p.name, p.value)
  {
    assert (sets + [p])[..|sets|] == sets;
  }

  lemma PassthroughSnoc(route: Route, args: map<string, Bytes>, i: nat)
    requires i < |route.query|
    ensures var (arg, name) := route.query[i];
            var before := route.queryConst + Passthrough(route.query[..i], args);
            route.queryConst + Passthrough(route.query[..i + 1], args) ==
            if arg in args then before + [Param(name, args[arg])] else before
  {
    assert route.query[..i + 1][..i] == route.query[..i];
  }

  lemma PrintedNonEmpty(es: EncodeSet, params: seq<Param>)
    ensures PrintQuery(es, params) == [] <==> params == []
  {}

  // SetParam against the reference.

  lemma {:induction false} WithoutForgets(params: seq<Param>, name: Bytes, key: Bytes)
    ensures FirstMatch(Without(params, name), key) == if key == name then None else FirstMatch(params, key)
  {
    if params != [] {
      WithoutForgets(params[1..], name, key);
      if params[0].name != name {
        assert ([params[0]] + Without(params[1..], name))[1..] == Without(params[1..], name);
      } else {
        assert [] + Without(params[1..], name) == Without(params[1..], name);
      }
    }
  }

  lemma {:induction false} SetThenGet(params: seq<Param>, name: Bytes, value: Bytes, key: Bytes)
    ensures FirstMatch(SetParam(params, name, value), key) == if key == name then Some(value) else FirstMatch(params, key)
  {
    if params != [] {
      if params[0].name == name {
        WithoutForgets(params[1..], name, key);
        assert ([Param(name, value)] + Without(params[1..], name))[1..] == Without(params[1..], name);
      } else {
        SetThenGet(params[1..], name, value, key);
        assert ([params[0]] + SetParam(params[1..], name, value))[1..] == SetParam(params[1..], name, value);
      }
    }
  }

  lemma {:induction false} AppliedIsLastSet(sets: seq<Param>, key: Bytes)
    ensures FirstMatch(Applied(sets), key) == LastSet(sets, key)
  {
    if sets != [] {
      var front, p := sets[..|sets| - 1], sets[|sets| - 1];
      AppliedIsLastSet(front, key);
      SetThenGet(Applied(front), p.name, p.value, key);
    }
  }

  // Names without spaces come back unchanged; values come back with + for each space.

  ghost predicate PlainNames(params: seq<Param>) {
    forall i :: 0 <= i < |params| ==> SPACE !in params[i].name
  }

  ghost predicate Clean(params: seq<Param>) { AllValid(params) && PlainNames(params) }

  lemma {:induction false} WithoutKeepsClean(params: seq<Param>, name: Bytes)
    requires Clean(params)
    ensures Clean(Without(params, name))
  {
    if params != [] {
      WithoutKeepsClean(params[1..], name);
    }
  }

  lemma {:induction false} SetKeepsClean(params: seq<Param>, name: Bytes, value: Bytes)
    requires Clean(params) && Valid(name) && Valid(value) && SPACE !in name
    ensures Clean(SetParam(params, name, value))
  {
    if params != [] {
      WithoutKeepsClean(params[1..], name);
      SetKeepsClean(params[1..], name, value);
    }
  }

  lemma {:induction false} AppliedKeepsClean(sets: seq<Param>)
    requires Clean(sets)
    ensures Clean(Applied(sets))
  {
    if sets != [] {
      AppliedKeepsClean(sets[..|sets| - 1]);
      SetKeepsClean(Applied(sets[..|sets| - 1]), sets[|sets| - 1].name, sets[|sets| - 1].value);
    }
  }

  function Plussed(v: Option<Bytes>): Option<Bytes> {
    if v.None? then None else Some(Swap(v.value, SPACE, PLUS))
  }

  lemma {:induction false} SeenByName(params: seq<Param>, key: Bytes)
    requires PlainNames(params)
    ensures FirstMatch(Seen(Form, params), key) == Plussed(FirstMatch(params, key))
  {
    if params != [] {
      SeenByName(params[1..], key);
      assert Seen(Form, params)[1..] == Seen(Form, params[1..]);
      assert Swap(params[0].name, SPACE, PLUS) == params[0].name;
    }
  }

  // What the client means to send, read off the route and the arguments alone.

  /** The last declared argument for parameter `name` that is present. */
  function ArgumentFor(query: seq<(string, Bytes)>, args: map<string, Bytes>, name: Bytes): Option<Bytes> {
    if query == [] then None
    else
      var (arg, param) := query[|query| - 1];
      if param == name && arg in args then Some(args[arg]) else ArgumentFor(query[..|query| - 1], args, name)
  }

  /** The last constant for parameter `name`. */
  function ConstantFor(queryConst: seq<Param>, name: Bytes): Option<Bytes> {
    if queryConst == [] then None
    else
      var p := queryConst[|queryConst| - 1];
      if p.name == name then Some(p.value) else ConstantFor(queryConst[..|queryConst| - 1], name)
  }

  /** A present argument wins over a constant. */
  function Intended(route: Route, args: map<string, Bytes>, name: Bytes): Option<Bytes> {
    var arg := ArgumentFor(route.query, args, name);
    if arg.Some? then arg else ConstantFor(route.queryConst, name)
  }

  /** What the two references mean, position by position. */
  lemma {:induction false} ArgumentIsLast(query: seq<(string, Bytes)>, args: map<string, Bytes>, name: Bytes, i: nat)
    requires i < |query| && query[i].1 == name && query[i].0 in args
    requires forall j :: i < j < |query| && query[j].0 in args ==> query[j].1 != name
    ensures ArgumentFor(query, args, name) == Some(args[query[i].0])
  {
    if i < |query| - 1 {
      ArgumentIsLast(query[..|query| - 1], args, name, i);
    }
  }

  lemma {:induction false} NoArgument(query: seq<(string, Bytes)>, args: map<string, Bytes>, name: Bytes)
    requires forall j :: 0 <= j < |query| && query[j].0 in args ==> query[j].1 != name
    ensures ArgumentFor(query, args, name) == None
  {
    if query != [] {
      NoArgument(query[..|query| - 1], args, name);
    }
  }

  lemma LastSetAppend(a: seq<Param>, b: seq<Param>, p: Param, name: Bytes)
    ensures LastSet(a + (b + [p]), name) == if p.name == name then Some(p.value) else LastSet(a + b, name)
  {
    assert a + (b + [p]) == (a + b) + [p];
    assert ((a + b) + [p])[..|a + b|] == a + b;
  }

  lemma {:induction false} LastSetOfConstants(queryConst: seq<Param>, name: Bytes)
    ensures LastSet(queryConst, name) == ConstantFor(queryConst, name)
  {
    if queryConst != [] {
      LastSetOfConstants(queryConst[..|queryConst| - 1], name);
    }
  }

  /** The `set` calls carry what is intended. */
  lemma {:induction false} SetsAreIntended(queryConst: seq<Param>, query: seq<(string, Bytes)>, args: map<string, Bytes>, name: Bytes)
    ensures LastSet(queryConst + Passthrough(query, args), name) == Intended(Route(queryConst, query), args, name)
  {
    if query == [] {
      assert queryConst + [] == queryConst;
      LastSetOfConstants(queryConst, name);
    } else {
      var front := query[..|query| - 1];
      var (arg, param) := query[|query| - 1];
      SetsAreIntended(queryConst, front, args, name);
      if arg in args {
        LastSetAppend(queryConst, Passthrough(front, args), Param(param, args[arg]), name);
      } else {
        assert Passthrough(front, args) + [] == Passthrough(front, args);
      }
    }
  }

  /** Constants and the parameters of present arguments are UTF-8, and their names have no space. */
  ghost predicate CleanRoute(route: Route, args: map<string, Bytes>) {
    && Clean(route.queryConst)
    && (forall i :: 0 <= i < |route.query| && route.query[i].0 in args ==>
          Valid(route.query[i].1) && SPACE !in route.query[i].1 && Valid(args[route.query[i].0]))
  }

  lemma {:induction false} PassthroughClean(query: seq<(string, Bytes)>, args: map<string, Bytes>)
    requires forall i :: 0 <= i < |query| && query[i].0 in args ==>
               Valid(query[i].1) && SPACE !in query[i].1 && Valid(args[query[i].0])
    ensures Clean(Passthrough(query, args))
  {
    if query != [] {
      PassthroughClean(query[..|query| - 1], args);
    }
  }

  lemma SetsClean(route: Route, args: map<string, Bytes>)
    requires CleanRoute(route, args)
    ensures Clean(Sets(route, args))
  {
    PassthroughClean(route.query, args);
  }

  /** The web client and the server agree on a request `path + buildQuery(...)`: the server reads, for each
    * parameter name, the last present argument declared for it, else its last constant, else nothing, with every space
    * turned into a +; so it reads exactly that value if and only if the value has no space. */
  lemma ClientServerAgree(path: Bytes, route: Route, args: map<string, Bytes>, key: Bytes)
    requires QUESTION !in path && CleanRoute(route, args) && key != []
    ensures var ps := Applied(Sets(route, args));
            var text := if ps == [] then [] else [QUESTION] + PrintQuery(Form, ps);
            var (p, q) := SplitQuery(path + text);
            var sent := Intended(route, args, key);
            && p == path
            && Lookup(q, key) == Plussed(sent)
            && (Lookup(q, key) == sent <==> sent.None? || SPACE !in sent.value)
  {
    var sets := Sets(route, args);
    var ps := Applied(sets);
    SetsClean(route, args);
    SetsAreIntended(route.queryConst, route.query, args, key);
    AppliedIsLastSet(sets, key);
    AppliedKeepsClean(sets);
    SeenByName(ps, key);
    PlussedIsExact(LastSet(sets, key));
    if ps == [] {
      assert path + [] == path;
      SplitNone(path, QUESTION);
      EmptyQuery(key);
    } else {
      var q := PrintQuery(Form, ps);
      assert path + ([QUESTION] + q) == path + [QUESTION] + q;
      SplitJoined(path, QUESTION, q);
      LookupPrinted(Form, ps, key);
    }
  }

  lemma PlussedIsExact(v: Option<Bytes>)
    ensures Plussed(v) == v <==> v.None? || SPACE !in v.value
  {
    if v.Some? {
      if SPACE in v.value {
        var i :| 0 <= i < |v.value| && v.value[i] == SPACE;
        assert Swap(v.value, SPACE, PLUS)[i] != v.value[i];
      } else {
        assert Swap(v.value, SPACE, PLUS) == v.value;
      }
    }
  }
}

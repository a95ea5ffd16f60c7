/** Endpoint discovery: `OpenAPIParser.parse` over the Paths Object and its Path Item Objects
    (sections 4.7.8 and 4.7.9 of OpenAPI 3.0.3). */
module OpenApi {
  import opened TaskQueue
  import opened Paths

  const VALID_METHODS := {"GET", "POST", "PUT", "DELETE", "PATCH", "OPTIONS", "HEAD", "TRACE"}

  /** A `security` value: not a list, or a list of this length. */
  datatype Security = NotAList | Listed(count: nat)

  /** `rest` stands for the parameters and the request body. */
  datatype Details = Details(security: Option<Security>, hasResponses: bool, rest: nat)

  /** None where the document has something that is not an object. Members keep the order of the document. */
  type Operation = Option<Details>

  type PathItem = Option<seq<(string, Operation)>>

  datatype PathsSection = Missing | NotAnObject | Listing(items: seq<(string, PathItem)>)

  datatype Spec = Empty | Spec(paths: PathsSection, security: Option<Security>)

  datatype Endpoint = Endpoint(httpMethod: string, path: string, hasAuth: bool, rest: nat)

  datatype Error =
    | MissingPaths
    | PathsNotAnObject
    | BadPathItem(path: string)
    | InvalidMethod(name: string, path: string)
    | BadDetails(httpMethod: string, path: string)
    | Duplicate(httpMethod: string, path: string)
    | MissingResponses(httpMethod: string, path: string)

  predicate Demands(s: Option<Security>) { s.Some? && s.value.Listed? && s.value.count > 0 }

  /** `_check_auth`: an operation's own security, even an empty list, overrides the global one. */
  predicate NeedsAuth(d: Details, global: Option<Security>) {
    if d.security.Some? then Demands(d.security) else Demands(global)
  }

  // ------------------------------------------------------------------
  // Reference: one step per entry of the document
  // ------------------------------------------------------------------

  datatype Entry = BadItem(path: string) | Occurrence(path: string, name: string, operation: Operation)

  function OpEntries(path: string, ops: seq<(string, Operation)>): seq<Entry> {
    if ops == [] then [] else
    var last := ops[|ops| - 1];
    OpEntries(path, ops[..|ops| - 1]) + [Occurrence(path, last.0, last.1)]
  }

  function ItemEntries(item: (string, PathItem)): seq<Entry> {
    if item.1.None? then [BadItem(item.0)] else OpEntries(item.0, item.1.value)
  }

  function Entries(items: seq<(string, PathItem)>): seq<Entry> {
    if items == [] then [] else Entries(items[..|items| - 1]) + ItemEntries(items[|items| - 1])
  }

  type EndpointKey = (string, string)

  datatype Found = Found(endpoints: seq<Endpoint>, errors: seq<Error>, seen: set<EndpointKey>)

  /** An entry that describes an operation. */
  predicate Valid(e: Entry) { e.Occurrence? && Upper(e.name) in VALID_METHODS && e.operation.Some? }

  function KeyOf(e: Entry): EndpointKey
    requires Valid(e)
  {
    (Upper(e.name), Normalize(e.path))
  }

  function EndpointOf(e: Entry, global: Option<Security>): Endpoint
    requires Valid(e)
  {
    Endpoint(KeyOf(e).0, KeyOf(e).1, NeedsAuth(e.operation.value, global), e.operation.value.rest)
  }

  function Read(f: Found, e: Entry, global: Option<Security>): Found {
    if e.BadItem? then f.(errors := f.errors + [BadPathItem(e.path)])
    else if Upper(e.name) !in VALID_METHODS then f.(errors := f.errors + [InvalidMethod(e.name, e.path)])
    else if e.operation.None? then f.(errors := f.errors + [BadDetails(Upper(e.name), e.path)])
    else if KeyOf(e) in f.seen then f.(errors := f.errors + [Duplicate(KeyOf(e).0, KeyOf(e).1)])
    else Found(f.endpoints + [EndpointOf(e, global)],
               f.errors + (if e.operation.value.hasResponses then [] else [MissingResponses(Upper(e.name), e.path)]),
               f.seen + {KeyOf(e)})
  }

  function ReadAll(f: Found, es: seq<Entry>, global: Option<Security>): Found {
    if es == [] then f else Read(ReadAll(f, es[..|es| - 1], global), es[|es| - 1], global)
  }

  function Parsed(f: Found, spec: Spec): Found {
    match spec
    case Empty => f
    case Spec(Missing, _) => f.(errors := f.errors + [MissingPaths])
    case Spec(NotAnObject, _) => f.(errors := f.errors + [PathsNotAnObject])
    case Spec(Listing(items), global) => ReadAll(f, Entries(items), global)
  }

  const NOTHING := Found([], [], {})

  class OpenAPIParser {
    const spec: Spec
    var endpoints: seq<Endpoint>
    var errors: seq<Error>
    var seen: set<EndpointKey>

    constructor (spec: Spec)
      ensures this.spec == spec && State() == NOTHING
    {
      this.spec := spec;
      endpoints, errors, seen := [], [], {};
    }

    ghost function State(): Found
      reads this
    {
      Found(endpoints, errors, seen)
    }

    method Parse()
      modifies this
      ensures State() == Parsed(old(State()), spec)
      ensures spec.Empty? ==> State() == old(State())
      ensures spec.Spec? && !spec.paths.Listing? ==>
        State() == old(State()).(errors := old(errors) + [if spec.paths.Missing? then MissingPaths else PathsNotAnObject])
    {
      hide ReadAll, Read, ItemEntries;
      if spec.Empty? {
        return;
      }
      if spec.paths.Missing? {
        errors := errors + [MissingPaths];
        return;
      }
      if spec.paths.NotAnObject? {
        errors := errors + [PathsNotAnObject];
        return;
      }
      var items := spec.paths.items;
      ghost var start := State();
      ReadNone(start, spec.security);
      for i := 0 to |items|
        invariant State() == ReadAll(start, Entries(items[..i]), spec.security)
      {
        assert items[..i + 1][..i] == items[..i];
        ReadAllAppend(start, Entries(items[..i]), ItemEntries(items[i]), spec.security);
        ParsePathItem(items[i].0, items[i].1);
      }
      assert items[..|items|] == items;
    }

    /** The body of the outer loop. */
    method ParsePathItem(path: string, item: PathItem)
      requires spec.Spec?
      modifies this
      ensures State() == ReadAll(old(State()), ItemEntries((path, item)), spec.security)
    {
      hide Read;
      ghost var start := State();
      if item.None? {
        errors := errors + [BadPathItem(path)];
        ReadOne(start, BadItem(path), spec.security);
        return;
      }
      var normalized := Normalize(path);
      var ops := item.value;
      ReadNone(start, spec.security);
      for i := 0 to |ops|
        invariant State() == ReadAll(start, OpEntries(path, ops[..i]), spec.security)
      {
        OneMoreOp(start, path, ops, i, spec.security);
        ParseOperation(path, normalized, ops[i].0, ops[i].1);
      }
      assert ops[..|ops|] == ops;
    }

    /** The body of the inner loop. */
    method ParseOperation(path: string, normalized: string, name: string, operation: Operation)
      requires spec.Spec? && normalized == Normalize(path)
      modifies this
      ensures State() == Read(old(State()), Occurrence(path, name, operation), spec.security)
    {
      hide Normalize, Upper;
      var upper := Upper(name);
      if upper !in VALID_METHODS {
        errors := errors + [InvalidMethod(name, path)];
        return;
      }
      if operation.None? {
        errors := errors + [BadDetails(upper, path)];
        return;
      }
      var key := (upper, normalized);
      if key in seen {
        errors := errors + [Duplicate(upper, normalized)];
        return;
      }
      if !operation.value.hasResponses {
        errors := errors + [MissingResponses(upper, path)];
      }
      endpoints := endpoints
        + [Endpoint(upper, normalized, NeedsAuth(operation.value, spec.security), operation.value.rest)];
      seen := seen + {key};
    }
  }

  lemma ReadNone(f: Found, global: Option<Security>)
    ensures ReadAll(f, [], global) == f
  {
  }

  lemma ReadOne(f: Found, e: Entry, global: Option<Security>)
    ensures ReadAll(f, [e], global) == Read(f, e, global)
    ensures e.BadItem? ==> Read(f, e, global) == f.(errors := f.errors + [BadPathItem(e.path)])
  {
    hide Upper, Normalize;
    ReadNone(f, global);
    assert [e][..0] == [];
  }

  lemma OneMoreOp(f: Found, path: string, ops: seq<(string, Operation)>, i: nat, global: Option<Security>)
    requires i < |ops|
    ensures ReadAll(f, OpEntries(path, ops[..i + 1]), global)
         == Read(ReadAll(f, OpEntries(path, ops[..i]), global), Occurrence(path, ops[i].0, ops[i].1), global)
  {
    hide Read;
    assert ops[..i + 1][..i] == ops[..i];
    var before, last := OpEntries(path, ops[..i]), Occurrence(path, ops[i].0, ops[i].1);
    assert (before + [last])[..|before|] == before;
  }

  lemma {:induction false} ReadAllAppend(f: Found, x: seq<Entry>, y: seq<Entry>, global: Option<Security>)
    ensures ReadAll(f, x + y, global) == ReadAll(ReadAll(f, x, global), y, global)
    decreases |y|
  {
    hide Read;
    if y == [] {
      assert x + y == x;
    } else {
      var n := |y| - 1;
      ReadAllAppend(f, x, y[..n], global);
      assert (x + y)[..|x + y| - 1] == x + y[..n];
    }
  }

  // ------------------------------------------------------------------
  // The entries of a document, and what an endpoint says of one
  // ------------------------------------------------------------------

  /** How many entries a path item stands for. */
  function EntryCount(item: (string, PathItem)): nat { if item.1.None? then 1 else |item.1.value| }

  function Offset(items: seq<(string, PathItem)>, i: nat): nat
    requires i <= |items|
  {
    if i == 0 then 0 else Offset(items, i - 1) + EntryCount(items[i - 1])
  }

  lemma {:induction false} OpEntriesAre(path: string, ops: seq<(string, Operation)>)
    ensures |OpEntries(path, ops)| == |ops|
    ensures forall j :: 0 <= j < |ops| ==> OpEntries(path, ops)[j] == Occurrence(path, ops[j].0, ops[j].1)
  {
    if ops != [] {
      OpEntriesAre(path, ops[..|ops| - 1]);
    }
  }

  lemma {:induction false} OffsetOfPrefix(items: seq<(string, PathItem)>, n: nat, i: nat)
    requires i <= n <= |items|
    ensures Offset(items[..n], i) == Offset(items, i)
  {
    if i > 0 {
      OffsetOfPrefix(items, n, i - 1);
    }
  }

  /** The j-th entry of a path item. */
  function EntryOf(item: (string, PathItem), j: nat): Entry
    requires j < EntryCount(item)
  {
    if item.1.None? then BadItem(item.0) else Occurrence(item.0, item.1.value[j].0, item.1.value[j].1)
  }

  lemma ItemEntriesAre(item: (string, PathItem))
    ensures |ItemEntries(item)| == EntryCount(item)
    ensures forall j :: 0 <= j < EntryCount(item) ==> ItemEntries(item)[j] == EntryOf(item, j)
  {
    if item.1.Some? {
      OpEntriesAre(item.0, item.1.value);
    }
  }

  lemma {:induction false} EntriesCount(items: seq<(string, PathItem)>)
    ensures |Entries(items)| == Offset(items, |items|)
  {
    if items != [] {
      hide ItemEntries, EntryCount;
      var n := |items| - 1;
      EntriesCount(items[..n]);
      OffsetOfPrefix(items, n, n);
      ItemEntriesAre(items[n]);
    }
  }

  /** The entries are those of the path items, one after the other, each in document order: a path item that is no
      object is one entry, any other one for each of its members. */
  lemma {:induction false} EntriesInOrder(items: seq<(string, PathItem)>, i: nat, j: nat)
    requires i < |items| && j < EntryCount(items[i])
    ensures Offset(items, i) + j < |Entries(items)| == Offset(items, |items|)
    ensures Entries(items)[Offset(items, i) + j] == EntryOf(items[i], j)
  {
    hide ItemEntries, EntryCount, EntryOf;
    var n := |items| - 1;
    EntriesCount(items);
    EntriesCount(items[..n]);
    OffsetOfPrefix(items, n, n);
    OffsetOfPrefix(items, n, i);
    ItemEntriesAre(items[n]);
    assert Entries(items) == Entries(items[..n]) + ItemEntries(items[n]);
    if i < n {
      EntriesInOrder(items[..n], i, j);
    }
  }

  /** An HTTP method, in either case. */
  predicate IsMethod(name: string) {
    || EqualFold(name, "GET") || EqualFold(name, "POST") || EqualFold(name, "PUT") || EqualFold(name, "DELETE")
    || EqualFold(name, "PATCH") || EqualFold(name, "OPTIONS") || EqualFold(name, "HEAD") || EqualFold(name, "TRACE")
  }

  lemma MethodsAre(name: string)
    ensures Upper(name) in VALID_METHODS <==> IsMethod(name)
  {
    UppersAre();
    UpperIsFold(name, "GET");
    UpperIsFold(name, "POST");
    UpperIsFold(name, "PUT");
    UpperIsFold(name, "DELETE");
    UpperIsFold(name, "PATCH");
    UpperIsFold(name, "OPTIONS");
    UpperIsFold(name, "HEAD");
    UpperIsFold(name, "TRACE");
    hide Upper, EqualFold;
  }

  lemma UppersAre()
    ensures Upper("GET") == "GET" && Upper("POST") == "POST" && Upper("PUT") == "PUT" && Upper("DELETE") == "DELETE"
    ensures Upper("PATCH") == "PATCH" && Upper("OPTIONS") == "OPTIONS" && Upper("HEAD") == "HEAD" && Upper("TRACE") == "TRACE"
  {
  }

  lemma {:induction false} UpperTwice(s: string)
    ensures Upper(Upper(s)) == Upper(s)
  {
  }

  /** An entry is valid if its name is a method and its details are an object. */
  lemma ValidIff(e: Entry)
    ensures Valid(e) <==> e.Occurrence? && IsMethod(e.name) && e.operation.Some?
  {
    hide Upper, IsMethod;
    if e.Occurrence? {
      MethodsAre(e.name);
    }
  }

  /** An operation needs authentication if its own list of schemes is not empty, or, having no such member, that of
      the document. */
  predicate IsSecured(own: Option<Security>, global: Option<Security>) {
    match own
    case Some(Listed(n)) => n > 0
    case Some(NotAList) => false
    case None => global.Some? && global.value.Listed? && global.value.count > 0
  }

  /** The endpoint says what the entry says: the method in upper case, the path in canonical form, whether
      authentication is needed, and the rest of the details. */
  predicate Describes(x: Endpoint, e: Entry, global: Option<Security>) {
    && e.Occurrence? && e.operation.Some?
    && EqualFold(x.httpMethod, e.name) && x.httpMethod in {"GET", "POST", "PUT", "DELETE", "PATCH", "OPTIONS", "HEAD", "TRACE"}
    && x.path == Canonical(Segments(e.path))
    && (x.hasAuth <==> IsSecured(e.operation.value.security, global)) && x.rest == e.operation.value.rest
  }

  lemma EndpointDescribes(e: Entry, global: Option<Security>)
    requires Valid(e)
    ensures Describes(EndpointOf(e, global), e, global)
  {
    NormalizeIsCanonical(e.path);
    UpperTwice(e.name);
    UpperIsFold(Upper(e.name), e.name);
    hide Normalize, Segments, Upper, EqualFold;
  }

  // ------------------------------------------------------------------
  // First valid occurrence wins
  // ------------------------------------------------------------------

  /** The operation an entry describes: its method and the segments of its path. */
  predicate SameOperation(e: Entry, e': Entry) {
    e.Occurrence? && e'.Occurrence? && EqualFold(e.name, e'.name) && Segments(e.path) == Segments(e'.path)
  }

  predicate IsFirst(es: seq<Entry>, i: nat) {
    i < |es| && Valid(es[i]) && forall j :: 0 <= j < i ==> !(Valid(es[j]) && SameOperation(es[j], es[i]))
  }

  /** The endpoints of the first valid occurrences, in document order. */
  function Firsts(es: seq<Entry>, global: Option<Security>): seq<Endpoint> {
    if es == [] then [] else
    var n := |es| - 1;
    Firsts(es[..n], global) + if IsFirst(es, n) then [EndpointOf(es[n], global)] else []
  }

  lemma SameKeyIffSameOperation(e: Entry, e': Entry)
    requires Valid(e) && Valid(e')
    ensures KeyOf(e) == KeyOf(e') <==> SameOperation(e, e')
  {
    hide Normalize, Segments, Upper, EqualFold;
    SameNormalIffSameSegments(e.path, e'.path);
    UpperIsFold(e.name, e'.name);
  }

  /** Keys of the valid entries so far. */
  ghost predicate SeenAre(seen: set<EndpointKey>, es: seq<Entry>) {
    forall k :: k in seen <==> exists j :: 0 <= j < |es| && Valid(es[j]) && KeyOf(es[j]) == k
  }

  lemma SeenStep(seen: set<EndpointKey>, es: seq<Entry>)
    requires es != [] && SeenAre(seen, es[..|es| - 1])
    ensures var e := es[|es| - 1];
      && SeenAre(if Valid(e) then seen + {KeyOf(e)} else seen, es)
      && (Valid(e) ==> (KeyOf(e) in seen <==> !IsFirst(es, |es| - 1)))
  {
    hide Normalize, Segments, Upper, SameOperation, KeyOf, Valid;
    var n := |es| - 1;
    var e, before := es[n], es[..n];
    assert es == before + [e];
    var now := if Valid(e) then seen + {KeyOf(e)} else seen;
    forall k
      ensures k in now <==> exists j :: 0 <= j < |es| && Valid(es[j]) && KeyOf(es[j]) == k
    {
      if k in seen {
        var j :| 0 <= j < |before| && Valid(before[j]) && KeyOf(before[j]) == k;
        assert es[j] == before[j];
      }
      if j :| 0 <= j < |es| && Valid(es[j]) && KeyOf(es[j]) == k {
        if j < n {
          assert before[j] == es[j];
        }
      }
    }
    if Valid(e) {
      forall j | 0 <= j < n && Valid(es[j])
        ensures KeyOf(es[j]) == KeyOf(e) <==> SameOperation(es[j], e)
      {
        SameKeyIffSameOperation(es[j], e);
      }
      forall j | 0 <= j < n
        ensures before[j] == es[j]
      {
      }
    }
  }

  /** Parsing keeps exactly the first valid occurrence of every operation, in order, and `seen` is the set of keys
      of the valid entries. */
  lemma {:induction false} ReadAllIsFirsts(es: seq<Entry>, global: Option<Security>)
    ensures var f := ReadAll(NOTHING, es, global);
      f.endpoints == Firsts(es, global) && SeenAre(f.seen, es)
    decreases |es|
  {
    if es != [] {
      hide Normalize, Segments, Upper, SeenAre, IsFirst, EndpointOf;
      var n := |es| - 1;
      ReadAllIsFirsts(es[..n], global);
      SeenStep(ReadAll(NOTHING, es[..n], global).seen, es);
    } else {
      assert SeenAre({}, []);
    }
  }

  lemma FirstOfPart(es: seq<Entry>, i: nat)
    requires es != []
    ensures i < |es| - 1 ==> (IsFirst(es, i) <==> IsFirst(es[..|es| - 1], i))
  {
    hide Valid, SameOperation;
    var before := es[..|es| - 1];
    forall j | 0 <= j < |before|
      ensures before[j] == es[j]
    {
    }
  }

  lemma {:induction false} FirstsHave(es: seq<Entry>, global: Option<Security>, i: nat)
    requires IsFirst(es, i)
    ensures EndpointOf(es[i], global) in Firsts(es, global)
    decreases |es|
  {
    hide Valid, EndpointOf, SameOperation;
    var n := |es| - 1;
    if i < n {
      FirstOfPart(es, i);
      FirstsHave(es[..n], global, i);
    }
  }

  lemma {:induction false} FirstsAreFirst(es: seq<Entry>, global: Option<Security>, x: Endpoint) returns (i: nat)
    requires x in Firsts(es, global)
    ensures IsFirst(es, i) && x == EndpointOf(es[i], global)
    decreases |es|
  {
    hide Valid, EndpointOf, SameOperation;
    var n := |es| - 1;
    if x in Firsts(es[..n], global) {
      i := FirstsAreFirst(es[..n], global, x);
      FirstOfPart(es, i);
    } else {
      i := n;
    }
  }

  function KeyOfEndpoint(x: Endpoint): EndpointKey { (x.httpMethod, x.path) }

  ghost predicate KeysMatch(f: Found) {
    && (forall x :: x in f.endpoints ==> KeyOfEndpoint(x) in f.seen)
    && (forall k :: k in f.seen ==> exists i :: 0 <= i < |f.endpoints| && KeyOfEndpoint(f.endpoints[i]) == k)
    && (forall i, j :: 0 <= i < j < |f.endpoints| ==> KeyOfEndpoint(f.endpoints[i]) != KeyOfEndpoint(f.endpoints[j]))
  }

  lemma ReadKeepsKeys(f: Found, e: Entry, global: Option<Security>)
    requires KeysMatch(f)
    ensures KeysMatch(Read(f, e, global))
  {
    hide Normalize, Upper, NeedsAuth;
    var t := Read(f, e, global);
    if t.endpoints != f.endpoints {
      var n := |f.endpoints|;
      assert t.endpoints[n] == EndpointOf(e, global);
      assert forall i :: 0 <= i < n ==> t.endpoints[i] == f.endpoints[i];
    }
  }

  /** Throughout any number of parses `seen` is the set of the keys of `endpoints`, and no key occurs twice. */
  lemma {:induction false} SeenIsKeysOfEndpoints(f: Found, es: seq<Entry>, global: Option<Security>)
    requires KeysMatch(f)
    ensures KeysMatch(ReadAll(f, es, global))
    decreases |es|
  {
    if es != [] {
      hide Read, KeysMatch;
      SeenIsKeysOfEndpoints(f, es[..|es| - 1], global);
      ReadKeepsKeys(ReadAll(f, es[..|es| - 1], global), es[|es| - 1], global);
    }
  }

  /** For every valid entry of the document the parser holds exactly one endpoint of its method and segments, and
      that one describes the first of them; and it holds no other endpoints. */
  lemma OneEndpointPerOperation(es: seq<Entry>, global: Option<Security>, i: nat)
    requires i < |es| && Valid(es[i])
    ensures var f := ReadAll(NOTHING, es, global);
      && (exists j: nat :: j <= i && IsFirst(es, j) && SameOperation(es[j], es[i]) && EndpointOf(es[j], global) in f.endpoints)
      && (forall m, n :: 0 <= m < n < |f.endpoints| ==>
            !(f.endpoints[m].httpMethod == f.endpoints[n].httpMethod
              && Segments(f.endpoints[m].path) == Segments(f.endpoints[n].path)))
      && (forall x :: x in f.endpoints ==> exists j: nat :: IsFirst(es, j) && x == EndpointOf(es[j], global) && Describes(x, es[j], global))
  {
    hide Normalize, Segments, Upper, EndpointOf, Firsts, Read, Describes, EqualFold;
    var f := ReadAll(NOTHING, es, global);
    ReadAllIsFirsts(es, global);
    var j := FirstOf(es, i);
    FirstsHave(es, global, j);
    SeenIsKeysOfEndpoints(NOTHING, es, global);
    PathsAreNormal(es, global);
    forall x | x in f.endpoints
      ensures exists j: nat :: IsFirst(es, j) && x == EndpointOf(es[j], global) && Describes(x, es[j], global)
    {
      var j := FirstsAreFirst(es, global, x);
      EndpointDescribes(es[j], global);
    }
    forall m, n | 0 <= m < n < |f.endpoints|
      ensures !(f.endpoints[m].httpMethod == f.endpoints[n].httpMethod
                && Segments(f.endpoints[m].path) == Segments(f.endpoints[n].path))
    {
      SameNormalIffSameSegments(f.endpoints[m].path, f.endpoints[n].path);
    }
  }

  lemma {:induction false} FirstOf(es: seq<Entry>, i: nat) returns (j: nat)
    requires i < |es| && Valid(es[i])
    ensures j <= i && IsFirst(es, j) && SameOperation(es[j], es[i])
    decreases i
  {
    hide Segments, Upper;
    j := i;
    if !IsFirst(es, i) {
      var k :| 0 <= k < i && Valid(es[k]) && SameOperation(es[k], es[i]);
      j := FirstOf(es, k);
    }
  }

  /** Every path kept is in canonical form. */
  lemma {:induction false} PathsAreNormal(es: seq<Entry>, global: Option<Security>)
    ensures forall x :: x in ReadAll(NOTHING, es, global).endpoints ==> Normalize(x.path) == x.path
    decreases |es|
  {
    if es != [] {
      hide Normalize, Upper;
      var e := es[|es| - 1];
      PathsAreNormal(es[..|es| - 1], global);
      NormalizeIsIdempotent(e.path);
    }
  }

  // ------------------------------------------------------------------
  // Nothing is dropped silently
  // ------------------------------------------------------------------

  /** The error of an entry that is left out. */
  function WhyNot(e: Entry): Error {
    if e.BadItem? then BadPathItem(e.path)
    else if Upper(e.name) !in VALID_METHODS then InvalidMethod(e.name, e.path)
    else if e.operation.None? then BadDetails(Upper(e.name), e.path)
    else Duplicate(KeyOf(e).0, KeyOf(e).1)
  }

  lemma {:induction false} OnlyGrows(f: Found, es: seq<Entry>, global: Option<Security>)
    ensures forall x :: x in f.endpoints ==> x in ReadAll(f, es, global).endpoints
    ensures forall x :: x in f.errors ==> x in ReadAll(f, es, global).errors
    decreases |es|
  {
    if es != [] {
      hide Normalize, Upper, NeedsAuth;
      OnlyGrows(f, es[..|es| - 1], global);
    }
  }

  lemma ReadFate(f: Found, e: Entry, global: Option<Security>)
    ensures var t := Read(f, e, global);
      if Valid(e) && KeyOf(e) !in f.seen
      then EndpointOf(e, global) in t.endpoints
           && (!e.operation.value.hasResponses ==> MissingResponses(Upper(e.name), e.path) in t.errors)
      else WhyNot(e) in t.errors
  {
    hide Normalize, Upper, NeedsAuth;
    var t := Read(f, e, global);
    if Valid(e) && KeyOf(e) !in f.seen {
      assert t.endpoints[|f.endpoints|] == EndpointOf(e, global);
      if !e.operation.value.hasResponses {
        assert t.errors[|f.errors|] == MissingResponses(Upper(e.name), e.path);
      }
    } else {
      assert t.errors[|f.errors|] == WhyNot(e);
    }
  }

  /** Entry by entry: the first valid occurrence of an operation becomes an endpoint that describes it, reported if it
      declares no responses; any other entry gets the error that says why it was left out - not an object, no HTTP
      method, no details, or a duplicate. */
  lemma FateOfEntry(es: seq<Entry>, global: Option<Security>, i: nat)
    requires i < |es|
    ensures var f, e := ReadAll(NOTHING, es, global), es[i];
      match e
      case BadItem(path) => BadPathItem(path) in f.errors
      case Occurrence(path, name, operation) =>
        if !IsMethod(name) then InvalidMethod(name, path) in f.errors
        else if operation.None? then exists m :: EqualFold(m, name) && BadDetails(m, path) in f.errors
        else if IsFirst(es, i) then
          && (exists x :: x in f.endpoints && Describes(x, e, global))
          && (!operation.value.hasResponses ==> exists m :: EqualFold(m, name) && MissingResponses(m, path) in f.errors)
        else exists m :: EqualFold(m, name) && Duplicate(m, Canonical(Segments(path))) in f.errors
  {
    hide ReadAll, Read, IsFirst, Describes, EqualFold, IsMethod, Segments, Normalize, Upper;
    var e := es[i];
    FirstIsValid(es, i);
    ReadIsFated(es, global, i);
    if e.Occurrence? {
      MethodsAre(e.name);
      ValidIff(e);
      UpperTwice(e.name);
      UpperIsFold(Upper(e.name), e.name);
      NormalizeIsCanonical(e.path);
      if Valid(e) {
        EndpointDescribes(e, global);
      }
    }
  }

  lemma FirstIsValid(es: seq<Entry>, i: nat)
    requires i < |es|
    ensures IsFirst(es, i) ==> Valid(es[i])
  {
  }

  lemma ReadIsFated(es: seq<Entry>, global: Option<Security>, i: nat)
    requires i < |es|
    ensures var f := ReadAll(NOTHING, es, global);
      if IsFirst(es, i)
      then EndpointOf(es[i], global) in f.endpoints
           && (!es[i].operation.value.hasResponses ==> MissingResponses(Upper(es[i].name), es[i].path) in f.errors)
      else WhyNot(es[i]) in f.errors
  {
    var part := es[..i + 1];
    var before := ReadAll(NOTHING, part[..i], global);
    assert part[i] == es[i] && es == part + es[i + 1..];
    ReadAllIsFirsts(part[..i], global);
    SeenStep(before.seen, part);
    ReadFate(before, es[i], global);
    ReadAllAppend(NOTHING, part, es[i + 1..], global);
    OnlyGrows(ReadAll(NOTHING, part, global), es[i + 1..], global);
    FirstInPart(es, i);
    hide Read, IsFirst, WhyNot, EndpointOf, SeenAre;
    assert ReadAll(NOTHING, part, global) == Read(before, es[i], global);
  }

  lemma FirstInPart(es: seq<Entry>, i: nat)
    requires i < |es|
    ensures IsFirst(es[..i + 1], i) <==> IsFirst(es, i)
  {
    hide Valid, SameOperation;
    var part := es[..i + 1];
    forall j | 0 <= j <= i
      ensures part[j] == es[j]
    {
    }
  }
}

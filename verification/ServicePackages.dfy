/** The inference of the protobuf package of every service from an OpenAPI document (resource/biz/base_api.go).

    Go maps are given as sequences in their order of iteration. The methods build the map with loops; what
    they build is said by `Infers`, from which its independence of every such order follows. */
module ServicePackages {
  import opened Common

  // ----- splitting strings -----

  /** The part before the first `c`, or all of it. */
  function Before(s: string, c: char): (r: string)
    ensures r <= s && c !in r
    ensures if c in s then |r| < |s| && s[|r|] == c else r == s
  {
    if s == [] || s[0] == c then [] else [s[0]] + Before(s[1..], c)
  }

  function After(s: string, c: char): string
    requires c in s
  {
    s[|Before(s, c)| + 1..]
  }

  function Split(s: string, c: char): (r: seq<string>)
    ensures r != []
    decreases |s|
  {
    if c in s then [Before(s, c)] + Split(After(s, c), c) else [s]
  }

  function Join(parts: seq<string>, c: char): string {
    if parts == [] then ""
    else if |parts| == 1 then parts[0]
    else parts[0] + [c] + Join(parts[1..], c)
  }

  lemma {:induction false} BeforeAt(a: string, c: char, b: string)
    requires c !in a
    ensures Before(a + ([c] + b), c) == a
  {
    var s := a + ([c] + b);
    if a != [] {
      assert s[1..] == a[1..] + ([c] + b);
      BeforeAt(a[1..], c, b);
    }
  }

  lemma {:induction false} CutAt(a: string, c: char, b: string)
    requires c !in a
    ensures c in a + [c] + b && Before(a + [c] + b, c) == a && After(a + [c] + b, c) == b
  {
    hide Before;
    BeforeAt(a, c, b);
    var s := a + [c] + b;
    assert s == a + ([c] + b) && s[|a|] == c;
  }

  ghost predicate Free(parts: seq<string>, c: char) {
    forall k :: 0 <= k < |parts| ==> c !in parts[k]
  }

  lemma {:induction false} JoinOfSplit(s: string, c: char)
    ensures Join(Split(s, c), c) == s && Free(Split(s, c), c)
    decreases |s|
  {
    if c in s {
      JoinOfSplit(After(s, c), c);
      assert Split(s, c)[1..] == Split(After(s, c), c);
      assert s == Before(s, c) + [c] + After(s, c);
    }
  }

  lemma {:induction false} SplitOfJoin(parts: seq<string>, c: char)
    requires parts != [] && Free(parts, c)
    ensures Split(Join(parts, c), c) == parts
  {
    if |parts| > 1 {
      SplitOfJoin(parts[1..], c);
      CutAt(parts[0], c, Join(parts[1..], c));
    }
  }

  lemma {:induction false} JoinAppend(a: seq<string>, b: seq<string>, c: char)
    requires a != [] && b != []
    ensures Join(a + b, c) == Join(a, c) + [c] + Join(b, c)
  {
    assert (a + b)[1..] == a[1..] + b;
    if |a| > 1 {
      JoinAppend(a[1..], b, c);
    } else {
      assert a[1..] + b == b;
    }
  }

  lemma {:induction false} PartsAreFrom(s: string, c: char, k: nat, x: char)
    requires k < |Split(s, c)| && x in Split(s, c)[k]
    ensures x in s
    decreases |s|
  {
    if c in s && k > 0 {
      PartsAreFrom(After(s, c), c, k - 1, x);
    }
  }

  function TrimLeft(s: string, c: char): (r: string)
    ensures forall x :: x in r ==> x in s
  {
    if s != [] && s[0] == c then TrimLeft(s[1..], c) else s
  }

  function TrimRight(s: string, c: char): (r: string)
    ensures forall x :: x in r ==> x in s
  {
    if s != [] && s[|s| - 1] == c then TrimRight(s[..|s| - 1], c) else s
  }

  function Trim(s: string, c: char): string { TrimRight(TrimLeft(s, c), c) }

  // ----- names -----

  const SCHEMA_PREFIX := "#/components/schemas/"

  predicate IsVersion(value: string) {
    |value| > 1 && value[0] == 'v' && '0' <= value[1] <= '9'
  }

  /** A version is a v and a digit, whatever follows. */
  lemma {:induction false} VersionIs(value: string)
    ensures IsVersion(value) <==> exists digit, rest :: digit in "0123456789" && value == ['v'] + ([digit] + rest)
  {
    var digits := "0123456789";
    if IsVersion(value) {
      var d := value[1] as int - '0' as int;
      assert digits[d] == value[1];
      assert value == ['v'] + ([value[1]] + value[2..]);
    }
  }

  /** The first version segment from `k` on that has a segment before and after it; the number of segments if none
      has. */
  function VersionAt(parts: seq<string>, k: nat): nat
    requires k <= |parts|
    decreases |parts| - k
  {
    if k == |parts| || (IsVersion(parts[k]) && 0 < k < |parts| - 1) then k else VersionAt(parts, k + 1)
  }

  /** protoPackageFromSchemaRef. */
  function PackageOfRef(ref: string): string {
    if SCHEMA_PREFIX <= ref then PackageOfParts(Split(ref[|SCHEMA_PREFIX|..], '.')) else ""
  }

  function PackageOfParts(parts: seq<string>): string {
    var k := VersionAt(parts, 0);
    if k < |parts| then Join(parts[..k + 1], '.') else ""
  }

  /** protoPackageTerminal. */
  function PackageTerminal(package: string): string {
    var parts := Split(package, '.');
    if |parts| < 2 || !IsVersion(parts[|parts| - 1]) then "" else parts[|parts| - 2]
  }

  /** openAPITerminal. */
  function PathTerminal(path: string): string {
    var parts := Split(Trim(path, '/'), '/');
    if |parts| < 3 || parts[0] != "api" || parts[1] != "v1" then "" else parts[2]
  }

  /** parseOperationID: the service and the verb. */
  function ParseOperationId(id: string): (string, string) {
    if '_' !in id || Before(id, '_') == "" || After(id, '_') == "" then ("", "") else (Before(id, '_'), After(id, '_'))
  }

  /** servicePackageKey. */
  function ServiceKey(path: string, service: string): string {
    if PathTerminal(path) == "" || service == "" then "" else PathTerminal(path) + [NUL] + service
  }

  /** The segments of a package: the last is its version, and no other but perhaps the first looks like one. */
  ghost predicate IsPackage(segments: seq<string>) {
    && |segments| >= 2 && Free(segments, '.') && IsVersion(segments[|segments| - 1])
    && forall k :: 0 < k < |segments| - 1 ==> !IsVersion(segments[k])
  }

  lemma {:induction false} VersionIsFirst(parts: seq<string>, k: nat, at: nat)
    requires k <= at < |parts| - 1 && 0 < at && IsVersion(parts[at])
    requires forall i :: 0 < i < at ==> !IsVersion(parts[i])
    ensures VersionAt(parts, k) == at
    decreases at - k
  {
    if k < at {
      VersionIsFirst(parts, k + 1, at);
    }
  }

  lemma {:induction false} VersionFound(parts: seq<string>, k: nat)
    requires k <= |parts|
    ensures var at := VersionAt(parts, k);
            && k <= at <= |parts|
            && (at < |parts| ==> 0 < at < |parts| - 1 && IsVersion(parts[at]))
            && forall i :: k <= i < at && 0 < i < |parts| - 1 ==> !IsVersion(parts[i])
    decreases |parts| - k
  {
    if k < |parts| && !(IsVersion(parts[k]) && 0 < k < |parts| - 1) {
      VersionFound(parts, k + 1);
    }
  }

  lemma {:induction false} PackageOfLongerParts(segments: seq<string>, rest: seq<string>)
    requires IsPackage(segments) && rest != []
    ensures PackageOfParts(segments + rest) == Join(segments, '.')
  {
    hide Join;
    var parts := segments + rest;
    VersionIsFirst(parts, 0, |segments| - 1);
    assert parts[..|segments|] == segments;
  }

  /** A reference to a message of a package gives the package back. */
  lemma {:induction false} RefOfPackage(segments: seq<string>, message: string)
    requires IsPackage(segments)
    ensures PackageOfRef(SCHEMA_PREFIX + (Join(segments, '.') + ['.'] + message)) == Join(segments, '.')
  {
    hide Join, Split, IsVersion, PackageOfParts;
    var rest := Split(message, '.');
    JoinOfSplit(message, '.');
    JoinAppend(segments, rest, '.');
    SplitOfJoin(segments + rest, '.');
    PackageOfLongerParts(segments, rest);
    PrefixDropped(SCHEMA_PREFIX, Join(segments, '.') + ['.'] + message);
  }

  /** The terminal of a package is the segment before its version. */
  lemma {:induction false} TerminalOfPackage(segments: seq<string>)
    requires IsPackage(segments)
    ensures Join(segments, '.') != "" && PackageTerminal(Join(segments, '.')) == segments[|segments| - 2]
  {
    hide Split, IsVersion;
    SplitOfJoin(segments, '.');
  }

  lemma {:induction false} PrefixDropped(prefix: string, name: string)
    ensures prefix <= prefix + name && (prefix + name)[|prefix|..] == name
  {
  }

  /** And no other reference has a package. */
  lemma {:induction false} PackageOfRefIs(ref: string) returns (segments: seq<string>, message: string)
    requires PackageOfRef(ref) != ""
    ensures IsPackage(segments) && PackageOfRef(ref) == Join(segments, '.')
    ensures ref == SCHEMA_PREFIX + (Join(segments, '.') + ['.'] + message)
  {
    hide Join, Split, IsVersion, VersionAt;
    var name := ref[|SCHEMA_PREFIX|..];
    var parts := Split(name, '.');
    var k := VersionAt(parts, 0);
    VersionFound(parts, 0);
    JoinOfSplit(name, '.');
    segments, message := parts[..k + 1], Join(parts[k + 1..], '.');
    JoinAppend(segments, parts[k + 1..], '.');
    assert segments + parts[k + 1..] == parts;
    assert ref == SCHEMA_PREFIX + name;
  }

  lemma {:induction false} CutAgain(s: string, c: char)
    requires c in s
    ensures s == Before(s, c) + [c] + After(s, c)
  {
  }

  /** An operation id is its service and its verb, joined by the first underscore. */
  lemma {:induction false} OperationIdParts(id: string, service: string, verb: string)
    requires service != "" && verb != "" && '_' !in service
    ensures ParseOperationId(id) == (service, verb) <==> id == service + ['_'] + verb
  {
    hide Before, After;
    CutAt(service, '_', verb);
    if '_' in id {
      CutAgain(id, '_');
    }
  }

  /** An id of another form has neither. */
  lemma {:induction false} OperationIdElse(id: string)
    ensures var (service, verb) := ParseOperationId(id);
            if service != "" && verb != "" then '_' !in service && id == service + ['_'] + verb
            else service == "" && verb == ""
  {
    if '_' in id {
      CutAgain(id, '_');
    }
  }

  /** With a terminal free of the separator, a key is its terminal and its service. */
  lemma {:induction false} KeyParts(path: string, service: string)
    requires NUL !in PathTerminal(path) && ServiceKey(path, service) != ""
    ensures var key := ServiceKey(path, service);
            NUL in key && Before(key, NUL) == PathTerminal(path) && After(key, NUL) == service
  {
    CutAt(PathTerminal(path), NUL, service);
  }

  lemma {:induction false} TerminalIsFrom(path: string)
    requires NUL !in path
    ensures NUL !in PathTerminal(path)
  {
    var s := Trim(path, '/');
    if NUL in PathTerminal(path) {
      PartsAreFrom(s, '/', 2, NUL);
      assert false;
    }
  }

  lemma {:induction false} TrimRightKeeps(s: string, x: string, c: char)
    requires s != [] && s[|s| - 1] != c
    ensures s <= TrimRight(s + x, c) <= s + x
  {
    if x == [] {
      assert s + x == s;
    } else {
      assert (s + x)[..|s + x| - 1] == s + x[..|x| - 1];
      TrimRightKeeps(s, x[..|x| - 1], c);
    }
  }

  predicate OnlySlashes(s: string) { forall k :: 0 <= k < |s| ==> s[k] == '/' }

  lemma {:induction false} TrimLeftIs(lead: string, s: string)
    requires OnlySlashes(lead) && s != [] && s[0] != '/'
    ensures TrimLeft(lead + s, '/') == s
  {
    if lead == [] {
      assert lead + s == s;
    } else {
      assert (lead + s)[1..] == lead[1..] + s;
      TrimLeftIs(lead[1..], s);
    }
  }

  lemma {:induction false} TrimLeftFrom(s: string) returns (lead: string)
    ensures OnlySlashes(lead) && s == lead + TrimLeft(s, '/')
  {
    if s != [] && s[0] == '/' {
      var rest := TrimLeftFrom(s[1..]);
      lead := ['/'] + rest;
      assert s == ['/'] + s[1..];
    } else {
      lead := "";
    }
  }

  lemma {:induction false} TrimRightFrom(s: string) returns (trail: string)
    ensures OnlySlashes(trail) && s == TrimRight(s, '/') + trail
  {
    if s != [] && s[|s| - 1] == '/' {
      var rest := TrimRightFrom(s[..|s| - 1]);
      trail := rest + ['/'];
      assert s == s[..|s| - 1] + ['/'];
    } else {
      trail := "";
      assert s + trail == s;
    }
  }

  lemma {:induction false} MainVersion(s: string)
    ensures "api" + ['/'] + ("v1" + ['/'] + s) == "api/v1/" + s
  {
  }

  lemma {:induction false} TrimToThird(lead: string, terminal: string, rest: string) returns (left: string)
    requires OnlySlashes(lead) && terminal != "" && '/' !in terminal
    ensures left <= rest
    ensures Trim(lead + ("api/v1/" + (terminal + rest)), '/') == "api" + ['/'] + ("v1" + ['/'] + (terminal + left))
  {
    hide TrimLeft, TrimRight, OnlySlashes;
    var prefix := "api/v1/";
    var kept := prefix + terminal;
    assert prefix + (terminal + rest) == kept + rest;
    assert kept[|kept| - 1] == terminal[|terminal| - 1];
    TrimLeftIs(lead, kept + rest);
    TrimRightKeeps(kept, rest, '/');
    left := TrimRight(kept + rest, '/')[|kept|..];
    assert TrimRight(kept + rest, '/') == kept + left == prefix + (terminal + left);
    MainVersion(terminal + left);
  }

  /** The path is of the main version and has the segment next, whatever slashes are before and whatever follows. */
  ghost predicate OfTheMainVersion(path: string, terminal: string) {
    exists lead, rest ::
      OnlySlashes(lead) && (rest == "" || rest[0] == '/') && path == lead + ("api/v1/" + (terminal + rest))
  }

  /** The terminal of a path is the third segment of a path of the main version; another path has none. */
  lemma {:induction false} TerminalOfPath(path: string, terminal: string)
    requires terminal != "" && '/' !in terminal
    ensures PathTerminal(path) == terminal <==> OfTheMainVersion(path, terminal)
  {
    hide Trim, Split;
    if OfTheMainVersion(path, terminal) {
      var lead, rest :|
        OnlySlashes(lead) && (rest == "" || rest[0] == '/') && path == lead + ("api/v1/" + (terminal + rest));
      var left := TrimToThird(lead, terminal, rest);
      ThirdSegment(terminal, left);
    }
    if PathTerminal(path) == terminal {
      TerminalBegins(path, terminal);
    }
  }

  lemma {:induction false} TerminalBegins(path: string, terminal: string)
    requires terminal != "" && PathTerminal(path) == terminal
    ensures OfTheMainVersion(path, terminal) && '/' !in terminal
  {
    hide TrimLeft, TrimRight, Split, Join;
    var inner := TrimLeft(path, '/');
    var parts := Split(TrimRight(inner, '/'), '/');
    var lead := TrimLeftFrom(path);
    var trail := TrimRightFrom(inner);
    JoinOfSplit(TrimRight(inner, '/'), '/');
    var rest := ThirdJoined(parts);
    var after := rest + trail;
    assert path == lead + ("api/v1/" + (terminal + after));
  }

  lemma {:induction false} ThirdJoined(parts: seq<string>) returns (rest: string)
    requires |parts| >= 3 && parts[0] == "api" && parts[1] == "v1"
    ensures rest == "" || rest[0] == '/'
    ensures Join(parts, '/') == "api/v1/" + (parts[2] + rest)
  {
    var left := parts[2..];
    assert parts[1..][0] == "v1" && parts[1..][1..] == left;
    assert Join(parts, '/') == "api" + ['/'] + ("v1" + ['/'] + Join(left, '/'));
    MainVersion(Join(left, '/'));
    rest := if |left| == 1 then "" else ['/'] + Join(left[1..], '/');
    assert Join(left, '/') == parts[2] + rest;
  }

  lemma {:induction false} SplitAt(a: string, c: char, b: string)
    requires c !in a
    ensures Split(a + [c] + b, c) == [a] + Split(b, c)
  {
    hide Before, After;
    CutAt(a, c, b);
  }

  lemma {:induction false} FirstSegment(a: string, c: char, rest: string)
    requires c !in a && (rest == "" || rest[0] == c)
    ensures Split(a + rest, c)[0] == a
  {
    hide Before, After, Split;
    if rest == "" {
      assert a + rest == a;
      SplitWhole(a, c);
    } else {
      assert a + rest == a + [c] + rest[1..];
      SplitAt(a, c, rest[1..]);
    }
  }

  lemma {:induction false} SplitWhole(a: string, c: char)
    requires c !in a
    ensures Split(a, c) == [a]
  {
  }

  lemma {:induction false} ThirdSegment(terminal: string, rest: string)
    requires '/' !in terminal && (rest == "" || rest[0] == '/')
    ensures var parts := Split("api" + ['/'] + ("v1" + ['/'] + (terminal + rest)), '/');
            |parts| >= 3 && parts[0] == "api" && parts[1] == "v1" && parts[2] == terminal
  {
    hide Split;
    SplitAt("api", '/', "v1" + ['/'] + (terminal + rest));
    SplitAt("v1", '/', terminal + rest);
    FirstSegment(terminal, '/', rest);
  }

  // ----- the document -----

  datatype Schema = Schema(ref: string, properties: seq<Schema>, items: Option<Schema>)

  /** The content of the request body and of each response are the schemas of their media types. */
  datatype Operation = Operation(operationId: string, parameters: seq<Schema>,
                                 requestBody: Option<seq<Schema>>, responses: seq<seq<Schema>>)

  datatype PathItem = PathItem(path: string, get: Option<Operation>, post: Option<Operation>,
                               put: Option<Operation>, delete: Option<Operation>)

  datatype Call = Call(path: string, operation: Operation)

  datatype PathOperation = PathOperation(verb: string, operation: Option<Operation>)

  /** pathOperations. */
  function PathOperations(item: PathItem): seq<PathOperation> {
    [PathOperation("GET", item.get), PathOperation("POST", item.post), PathOperation("PUT", item.put),
     PathOperation("DELETE", item.delete)]
  }

  function DeclaredCalls(path: string, operations: seq<PathOperation>, n: nat): seq<Call>
    requires n <= |operations|
  {
    if n == 0 then []
    else DeclaredCalls(path, operations, n - 1) +
         if operations[n - 1].operation.None? then [] else [Call(path, operations[n - 1].operation.value)]
  }

  /** The operations of a document, each with its path. */
  function CallsOf(items: seq<PathItem>, n: nat): seq<Call>
    requires n <= |items|
  {
    if n == 0 then [] else CallsOf(items, n - 1) + DeclaredCalls(items[n - 1].path, PathOperations(items[n - 1]), 4)
  }

  function AllCalls(items: seq<PathItem>): seq<Call> { CallsOf(items, |items|) }

  function KeyOf(call: Call): string { ServiceKey(call.path, ParseOperationId(call.operation.operationId).0) }

  // ----- what is inferred -----

  /** The reference occurs in the schema, at whatever depth. */
  ghost predicate Refers(schema: Schema, ref: string)
    decreases schema
  {
    || schema.ref == ref
    || (exists k :: 0 <= k < |schema.properties| && Refers(schema.properties[k], ref))
    || (schema.items.Some? && Refers(schema.items.value, ref))
  }

  /** The reference is to a message of the package, and the package is of the path's terminal. */
  predicate Qualifies(path: string, ref: string, package: string) {
    package != "" && PackageOfRef(ref) == package && PackageTerminal(package) == PathTerminal(path)
  }

  ghost predicate Mentions(path: string, schema: Schema, package: string) {
    exists ref :: Refers(schema, ref) && Qualifies(path, ref, package)
  }

  ghost predicate AnyMentions(path: string, schemas: seq<Schema>, n: nat, package: string)
    requires n <= |schemas|
  {
    exists k :: 0 <= k < n && Mentions(path, schemas[k], package)
  }

  ghost predicate Has(operation: Operation, schema: Schema) {
    || schema in operation.parameters
    || (operation.requestBody.Some? && schema in operation.requestBody.value)
    || exists k :: 0 <= k < |operation.responses| && schema in operation.responses[k]
  }

  ghost predicate CallMentions(call: Call, package: string) {
    exists schema :: Has(call.operation, schema) && Mentions(call.path, schema, package)
  }

  ghost predicate Known(calls: seq<Call>, key: string) {
    key != "" && exists k :: 0 <= k < |calls| && KeyOf(calls[k]) == key
  }

  ghost predicate Candidate(calls: seq<Call>, key: string, package: string) {
    exists k :: 0 <= k < |calls| && KeyOf(calls[k]) == key && CallMentions(calls[k], package)
  }

  ghost predicate OfTerminal(calls: seq<Call>, terminal: string, package: string) {
    exists k :: 0 <= k < |calls| && KeyOf(calls[k]) != "" && PathTerminal(calls[k].path) == terminal &&
        CallMentions(calls[k], package)
  }

  /** The package of a service: its only candidate or, when it has none, the only package of its terminal. */
  ghost predicate Owns(calls: seq<Call>, key: string, package: string) {
    && Known(calls, key)
    && if exists p :: Candidate(calls, key, p) then
         Candidate(calls, key, package) && forall p :: Candidate(calls, key, p) ==> p == package
       else
         NUL in key && OfTerminal(calls, Before(key, NUL), package) &&
         forall p :: OfTerminal(calls, Before(key, NUL), p) ==> p == package
  }

  predicate Maps(packages: map<string, string>, key: string, package: string) {
    key in packages && packages[key] == package
  }

  ghost predicate Infers(calls: seq<Call>, packages: map<string, string>) {
    forall key, package :: Maps(packages, key, package) <==> Owns(calls, key, package)
  }

  /** The schema of a property, or of the items of an array. */
  predicate IsPart(schema: Schema, part: Schema) {
    part in schema.properties || schema.items == Some(part)
  }

  /** Schemas, each a part of the one before, from this one to one that is the reference. */
  ghost predicate LeadsToRef(schema: Schema, chain: seq<Schema>, ref: string) {
    && |chain| > 0 && chain[0] == schema && chain[|chain| - 1].ref == ref
    && forall i, j :: 0 <= i && j == i + 1 && j < |chain| ==> IsPart(chain[i], chain[j])
  }

  /** A reference is found exactly if properties and array items lead to it, in any number of steps. */
  lemma {:induction false} RefersIff(schema: Schema, ref: string)
    ensures Refers(schema, ref) <==> exists chain: seq<Schema> :: LeadsToRef(schema, chain, ref)
  {
    if Refers(schema, ref) {
      var chain := RefersByChain(schema, ref);
    }
    forall chain: seq<Schema> | LeadsToRef(schema, chain, ref) ensures Refers(schema, ref) {
      ChainRefers(schema, chain, ref);
    }
  }

  lemma {:induction false} RefersByChain(schema: Schema, ref: string) returns (chain: seq<Schema>)
    requires Refers(schema, ref)
    ensures LeadsToRef(schema, chain, ref)
    decreases schema
  {
    if schema.ref == ref {
      chain := [schema];
    } else {
      var part: Schema;
      if k :| 0 <= k < |schema.properties| && Refers(schema.properties[k], ref) {
        part := schema.properties[k];
      } else {
        part := schema.items.value;
      }
      var rest := RefersByChain(part, ref);
      chain := [schema] + rest;
      forall i, j | 0 <= i && j == i + 1 && j < |chain| ensures IsPart(chain[i], chain[j]) {
        if i > 0 {
          assert IsPart(rest[i - 1], rest[j - 1]);
        }
      }
    }
  }

  lemma {:induction false} ChainRefers(schema: Schema, chain: seq<Schema>, ref: string)
    requires LeadsToRef(schema, chain, ref)
    ensures Refers(schema, ref)
    decreases |chain|
  {
    if |chain| > 1 {
      var rest := chain[1..];
      forall i, j | 0 <= i && j == i + 1 && j < |rest| ensures IsPart(rest[i], rest[j]) {
        assert IsPart(chain[i + 1], chain[j + 1]);
      }
      ChainRefers(chain[1], rest, ref);
      assert IsPart(chain[0], chain[1]);
    }
  }

  // ----- the program -----

  lemma {:induction false} MentionsBySchema(path: string, schema: Schema, package: string)
    ensures Mentions(path, schema, package) <==>
            || Qualifies(path, schema.ref, package)
            || AnyMentions(path, schema.properties, |schema.properties|, package)
            || (schema.items.Some? && Mentions(path, schema.items.value, package))
  {
    hide Qualifies;
    if AnyMentions(path, schema.properties, |schema.properties|, package) {
      var k :| 0 <= k < |schema.properties| && Mentions(path, schema.properties[k], package);
      var ref :| Refers(schema.properties[k], ref) && Qualifies(path, ref, package);
      assert Refers(schema, ref);
    }
    if schema.items.Some? && Mentions(path, schema.items.value, package) {
      var ref :| Refers(schema.items.value, ref) && Qualifies(path, ref, package);
      assert Refers(schema, ref);
    }
    if Qualifies(path, schema.ref, package) {
      assert Refers(schema, schema.ref);
    }
  }

  /** Go fills the set passed in; here it is passed on. */
  method CollectSchemaProtoPackages(path: string, schema: Schema, before: set<string>) returns (packages: set<string>)
    ensures forall p :: p in packages <==> p in before || Mentions(path, schema, p)
    decreases schema
  {
    hide Mentions, PackageOfRef, PackageTerminal, PathTerminal;
    packages := before;
    var packageName := PackageOfRef(schema.ref);
    if packageName != "" && PackageTerminal(packageName) == PathTerminal(path) {
      packages := packages + {packageName};
    }
    ghost var own := packages;
    for i := 0 to |schema.properties|
      invariant forall p :: p in packages <==> p in own || AnyMentions(path, schema.properties, i, p)
    {
      packages := CollectSchemaProtoPackages(path, schema.properties[i], packages);
    }
    if schema.items.Some? {
      packages := CollectSchemaProtoPackages(path, schema.items.value, packages);
    }
    forall p ensures p in packages <==> p in before || Mentions(path, schema, p) {
      MentionsBySchema(path, schema, p);
    }
  }

  method CollectAll(path: string, schemas: seq<Schema>, before: set<string>) returns (packages: set<string>)
    ensures forall p :: p in packages <==> p in before || AnyMentions(path, schemas, |schemas|, p)
  {
    hide Mentions;
    packages := before;
    for i := 0 to |schemas|
      invariant forall p :: p in packages <==> p in before || AnyMentions(path, schemas, i, p)
    {
      packages := CollectSchemaProtoPackages(path, schemas[i], packages);
    }
  }

  lemma {:induction false} CallMentionsByPart(call: Call, package: string)
    ensures var o := call.operation;
            CallMentions(call, package) <==>
            || AnyMentions(call.path, o.parameters, |o.parameters|, package)
            || (o.requestBody.Some? && AnyMentions(call.path, o.requestBody.value, |o.requestBody.value|, package))
            || AnyResponse(call, |o.responses|, package)
  {
    hide Mentions;
    var o := call.operation;
    if AnyMentions(call.path, o.parameters, |o.parameters|, package) {
      var k :| 0 <= k < |o.parameters| && Mentions(call.path, o.parameters[k], package);
      assert Has(o, o.parameters[k]);
    }
    if o.requestBody.Some? && AnyMentions(call.path, o.requestBody.value, |o.requestBody.value|, package) {
      var k :| 0 <= k < |o.requestBody.value| && Mentions(call.path, o.requestBody.value[k], package);
      assert Has(o, o.requestBody.value[k]);
    }
    if AnyResponse(call, |o.responses|, package) {
      var i :| 0 <= i < |o.responses| && AnyMentions(call.path, o.responses[i], |o.responses[i]|, package);
      var k :| 0 <= k < |o.responses[i]| && Mentions(call.path, o.responses[i][k], package);
      assert Has(o, o.responses[i][k]);
    }
    if CallMentions(call, package) {
      MentionedInPart(call, package);
    }
  }

  ghost predicate AnyResponse(call: Call, n: nat, package: string)
    requires n <= |call.operation.responses|
  {
    exists k :: 0 <= k < n && AnyMentions(call.path, call.operation.responses[k], |call.operation.responses[k]|,
        package)
  }

  lemma {:induction false} MentionedInPart(call: Call, package: string)
    requires CallMentions(call, package)
    ensures var o := call.operation;
            || AnyMentions(call.path, o.parameters, |o.parameters|, package)
            || (o.requestBody.Some? && AnyMentions(call.path, o.requestBody.value, |o.requestBody.value|, package))
            || AnyResponse(call, |o.responses|, package)
  {
    hide Mentions;
    var o := call.operation;
    var schema :| Has(o, schema) && Mentions(call.path, schema, package);
    if schema in o.parameters {
      var k :| 0 <= k < |o.parameters| && o.parameters[k] == schema;
    } else if o.requestBody.Some? && schema in o.requestBody.value {
      var k :| 0 <= k < |o.requestBody.value| && o.requestBody.value[k] == schema;
    } else {
      var i :| 0 <= i < |o.responses| && schema in o.responses[i];
      var k :| 0 <= k < |o.responses[i]| && o.responses[i][k] == schema;
    }
  }

  method OperationProtoPackages(path: string, operation: Operation) returns (packages: set<string>)
    ensures forall p :: p in packages <==> CallMentions(Call(path, operation), p)
  {
    hide AnyMentions, CallMentions;
    ghost var call := Call(path, operation);
    packages := CollectAll(path, operation.parameters, {});
    if operation.requestBody.Some? {
      packages := CollectAll(path, operation.requestBody.value, packages);
    }
    ghost var own := packages;
    for i := 0 to |operation.responses|
      invariant forall p :: p in packages <==> p in own || AnyResponse(call, i, p)
    {
      packages := CollectAll(path, operation.responses[i], packages);
    }
    forall p ensures p in packages <==> CallMentions(call, p) {
      CallMentionsByPart(call, p);
    }
  }

  /** candidatesByService and packagesByTerminal. */
  datatype Index = Index(candidates: map<string, set<string>>, byTerminal: map<string, set<string>>)

  function Get(m: map<string, set<string>>, key: string): set<string> { if key in m then m[key] else {} }

  predicate In(m: map<string, set<string>>, key: string, package: string) { package in Get(m, key) }

  ghost predicate Indexes(index: Index, calls: seq<Call>) {
    && (forall key :: key in index.candidates <==> Known(calls, key))
    && (forall key, p :: key in index.candidates ==> (In(index.candidates, key, p) <==> Candidate(calls, key, p)))
    && (forall t, p :: In(index.byTerminal, t, p) <==> OfTerminal(calls, t, p))
  }

  lemma {:induction false} OneMore(calls: seq<Call>, call: Call, key: string, terminal: string, package: string)
    ensures var more := calls + [call];
            && (Known(more, key) <==> Known(calls, key) || (key != "" && KeyOf(call) == key))
            && (Candidate(more, key, package) <==>
                Candidate(calls, key, package) || (KeyOf(call) == key && CallMentions(call, package)))
            && (OfTerminal(more, terminal, package) <==>
                OfTerminal(calls, terminal, package) ||
                (KeyOf(call) != "" && PathTerminal(call.path) == terminal && CallMentions(call, package)))
  {
    hide KeyOf, CallMentions, PathTerminal;
    var more := calls + [call];
    assert more[|calls|] == call;
    assert forall k :: 0 <= k < |calls| ==> more[k] == calls[k];
  }

  /** The body of the loop over the operations. */
  method IndexCall(before: Index, path: string, operation: Operation, ghost calls: seq<Call>) returns (index: Index)
    requires Indexes(before, calls)
    ensures Indexes(index, calls + [Call(path, operation)])
  {
    hide KeyOf, CallMentions, PathTerminal, Known, Candidate, OfTerminal;
    ghost var call := Call(path, operation);
    index := before;
    var serviceKey := KeyOf(Call(path, operation));
    if serviceKey == "" {
      IndexKept(before, calls, call);
      return;
    }
    if serviceKey !in index.candidates {
      index := index.(candidates := index.candidates[serviceKey := {}]);
    }
    var packages := OperationProtoPackages(path, operation);
    index := File(index, serviceKey, PathTerminal(path), packages);
    IndexGrown(before, calls, call, packages, index);
  }

  ghost predicate Gains(before: map<string, set<string>>, after: map<string, set<string>>, key: string,
                        more: set<string>) {
    forall k, p :: In(after, k, p) <==> In(before, k, p) || (k == key && p in more)
  }

  lemma {:induction false} GainsOne(before: map<string, set<string>>, m: map<string, set<string>>, key: string,
                                    more: set<string>, p: string)
    requires Gains(before, m, key, more)
    ensures Gains(before, m[key := Get(m, key) + {p}], key, more + {p})
  {
    var after := m[key := Get(m, key) + {p}];
    forall k, q ensures In(after, k, q) <==> In(before, k, q) || (k == key && q in more + {p}) {
      assert In(m, k, q) <==> In(before, k, q) || (k == key && q in more);
    }
  }

  /** Every package becomes a candidate of the service and a package of the terminal. */
  method File(before: Index, serviceKey: string, terminal: string, packages: set<string>) returns (index: Index)
    requires serviceKey in before.candidates
    ensures index.candidates.Keys == before.candidates.Keys
    ensures Gains(before.candidates, index.candidates, serviceKey, packages)
    ensures Gains(before.byTerminal, index.byTerminal, terminal, packages)
  {
    index := before;
    var left := packages;
    ghost var done: set<string> := {};
    while left != {}
      invariant done + left == packages
      invariant index.candidates.Keys == before.candidates.Keys
      invariant Gains(before.candidates, index.candidates, serviceKey, done)
      invariant Gains(before.byTerminal, index.byTerminal, terminal, done)
      decreases left
    {
      hide Gains, Get;
      var p :| p in left;
      left := left - {p};
      GainsOne(before.candidates, index.candidates, serviceKey, done, p);
      GainsOne(before.byTerminal, index.byTerminal, terminal, done, p);
      done := done + {p};
      index := Index(index.candidates[serviceKey := Get(index.candidates, serviceKey) + {p}],
                     index.byTerminal[terminal := Get(index.byTerminal, terminal) + {p}]);
    }
    assert done == packages;
  }

  lemma {:induction false} IndexKept(before: Index, calls: seq<Call>, call: Call)
    requires Indexes(before, calls) && KeyOf(call) == ""
    ensures Indexes(before, calls + [call])
  {
    hide KeyOf, CallMentions, PathTerminal, Known, Candidate, OfTerminal;
    var more := calls + [call];
    EmptyKeyUnknown(calls);
    forall key ensures Known(more, key) <==> Known(calls, key) {
      OneMore(calls, call, key, "", "");
    }
    forall key, p | key in before.candidates ensures Candidate(more, key, p) <==> Candidate(calls, key, p) {
      OneMore(calls, call, key, "", p);
    }
    forall t, p ensures OfTerminal(more, t, p) <==> OfTerminal(calls, t, p) {
      OneMore(calls, call, "", t, p);
    }
  }

  lemma {:induction false} EmptyKeyUnknown(calls: seq<Call>)
    ensures !Known(calls, "")
  {
  }

  lemma {:induction false} IndexGrown(before: Index, calls: seq<Call>, call: Call, packages: set<string>, index: Index)
    requires Indexes(before, calls) && KeyOf(call) != ""
    requires index.candidates.Keys == before.candidates.Keys + {KeyOf(call)}
    requires forall p :: p in packages <==> CallMentions(call, p)
    requires Gains(before.candidates, index.candidates, KeyOf(call), packages)
    requires Gains(before.byTerminal, index.byTerminal, PathTerminal(call.path), packages)
    ensures Indexes(index, calls + [call])
  {
    hide KeyOf, CallMentions, PathTerminal, Known, Candidate, OfTerminal;
    var more := calls + [call];
    forall key ensures key in index.candidates <==> Known(more, key) {
      OneMore(calls, call, key, "", "");
    }
    forall key, p | key in index.candidates ensures In(index.candidates, key, p) <==> Candidate(more, key, p) {
      OneMore(calls, call, key, "", p);
      assert In(index.candidates, key, p) <==> In(before.candidates, key, p) || (key == KeyOf(call) && p in packages);
      if key !in before.candidates {
        UnknownHasNone(calls, key, p);
      }
    }
    forall t, p ensures In(index.byTerminal, t, p) <==> OfTerminal(more, t, p) {
      OneMore(calls, call, "", t, p);
      assert In(before.byTerminal, t, p) <==> OfTerminal(calls, t, p);
    }
  }

  lemma {:induction false} UnknownHasNone(calls: seq<Call>, key: string, package: string)
    requires !Known(calls, key) && key != ""
    ensures !Candidate(calls, key, package)
  {
    hide KeyOf, CallMentions;
  }

  /** The element of a set of one. */
  method SoleOf(s: set<string>) returns (sole: Option<string>)
    ensures forall p :: sole == Some(p) <==> s == {p}
  {
    sole := None;
    if |s| == 1 {
      var p :| p in s;
      sole := Some(p);
      assert |s - {p}| == 0;
      assert s == {p};
    }
  }

  /** The body of the second loop. */
  method FallbackOf(index: Index, key: string) returns (sole: Option<string>)
    requires key in index.candidates
    ensures forall p :: sole == Some(p) <==> FallsBack(index, key, p)
    ensures sole.Some? ==> forall p :: index.candidates[key] != {p}
  {
    sole := None;
    if index.candidates[key] == {} && NUL in key {
      sole := SoleOf(Get(index.byTerminal, Before(key, NUL)));
    }
    forall p: string ensures {p} != {} {
      assert p in {p};
    }
  }

  /** The services in `left` are still to be looked at by the first loop. */
  ghost predicate FirstRound(index: Index, left: set<string>, packages: map<string, string>) {
    forall key, p :: Maps(packages, key, p) <==> key in index.candidates && key !in left && index.candidates[key] == {p}
  }

  /** The services in `left` are still to be looked at by the second loop. */
  ghost predicate SecondRound(index: Index, left: set<string>, packages: map<string, string>) {
    forall key, p :: Maps(packages, key, p) <==>
      key in index.candidates && (index.candidates[key] == {p} || (key !in left && FallsBack(index, key, p)))
  }

  function With(packages: map<string, string>, key: string, package: Option<string>): map<string, string> {
    if package.Some? then packages[key := package.value] else packages
  }

  lemma {:induction false} FirstRoundStep(index: Index, left: set<string>, packages: map<string, string>, key: string,
                                          sole: Option<string>)
    requires FirstRound(index, left, packages) && key in left && key in index.candidates
    requires forall p :: sole == Some(p) <==> index.candidates[key] == {p}
    ensures FirstRound(index, left - {key}, With(packages, key, sole))
  {
    var after := With(packages, key, sole);
    forall k, p
      ensures Maps(after, k, p) <==> k in index.candidates && k !in left - {key} && index.candidates[k] == {p}
    {
      assert Maps(packages, k, p) <==> k in index.candidates && k !in left && index.candidates[k] == {p};
      assert k == key ==> (sole == Some(p) <==> index.candidates[key] == {p});
    }
  }

  lemma {:induction false} SecondRoundStep(index: Index, left: set<string>, packages: map<string, string>,
                                           key: string, sole: Option<string>)
    requires SecondRound(index, left, packages) && key in left && key in index.candidates
    requires forall p :: sole == Some(p) <==> FallsBack(index, key, p)
    requires sole.Some? ==> forall p :: index.candidates[key] != {p}
    ensures SecondRound(index, left - {key}, With(packages, key, sole))
  {
    hide FallsBack;
    var after := With(packages, key, sole);
    forall k, p
      ensures Maps(after, k, p) <==>
              k in index.candidates && (index.candidates[k] == {p} || (k !in left - {key} && FallsBack(index, k, p)))
    {
      assert Maps(packages, k, p) <==>
             k in index.candidates && (index.candidates[k] == {p} || (k !in left && FallsBack(index, k, p)));
      assert k == key ==> (sole == Some(p) <==> FallsBack(index, key, p));
    }
  }

  lemma {:induction false} RoundsMeet(index: Index, packages: map<string, string>)
    ensures FirstRound(index, index.candidates.Keys, map[])
    ensures FirstRound(index, {}, packages) ==> SecondRound(index, index.candidates.Keys, packages)
  {
  }

  /** The two loops over the services. */
  method SelectPackages(index: Index, ghost calls: seq<Call>) returns (packages: map<string, string>)
    requires Indexes(index, calls)
    ensures Infers(calls, packages)
  {
    hide Indexes, Infers, FallsBack, Maps, FirstRound, SecondRound;
    packages := map[];
    RoundsMeet(index, packages);
    var keys := index.candidates.Keys;
    while keys != {}
      invariant keys <= index.candidates.Keys && FirstRound(index, keys, packages)
      decreases keys
    {
      var key :| key in keys;
      var sole := SoleOf(index.candidates[key]);
      FirstRoundStep(index, keys, packages, key, sole);
      keys := keys - {key};
      if sole.Some? {
        packages := packages[key := sole.value];
      }
    }
    RoundsMeet(index, packages);
    keys := index.candidates.Keys;
    while keys != {}
      invariant keys <= index.candidates.Keys && SecondRound(index, keys, packages)
      decreases keys
    {
      var key :| key in keys;
      var sole := FallbackOf(index, key);
      SecondRoundStep(index, keys, packages, key, sole);
      keys := keys - {key};
      if sole.Some? {
        packages := packages[key := sole.value];
      }
    }
    SelectedAreOwned(index, calls, packages);
  }

  predicate FallsBack(index: Index, key: string, package: string)
    requires key in index.candidates
  {
    index.candidates[key] == {} && NUL in key && Get(index.byTerminal, Before(key, NUL)) == {package}
  }

  lemma {:induction false} SelectedAreOwned(index: Index, calls: seq<Call>, packages: map<string, string>)
    requires Indexes(index, calls)
    requires SecondRound(index, {}, packages)
    ensures Infers(calls, packages)
  {
    hide Known, Candidate, OfTerminal, Before;
    forall key, package ensures Maps(packages, key, package) <==> Owns(calls, key, package) {
      if key in index.candidates {
        SelectedIsOwned(index, calls, key, package);
      }
    }
  }

  lemma {:induction false} SelectedIsOwned(index: Index, calls: seq<Call>, key: string, package: string)
    requires Indexes(index, calls) && key in index.candidates
    ensures index.candidates[key] == {package} || FallsBack(index, key, package) <==> Owns(calls, key, package)
  {
    hide Known, Candidate, OfTerminal, Before;
    var candidates, others := index.candidates[key], Get(index.byTerminal, Before(key, NUL));
    forall p ensures p in candidates <==> Candidate(calls, key, p) {
      assert In(index.candidates, key, p) <==> Candidate(calls, key, p);
    }
    forall p ensures p in others <==> OfTerminal(calls, Before(key, NUL), p) {
      assert In(index.byTerminal, Before(key, NUL), p) <==> OfTerminal(calls, Before(key, NUL), p);
    }
    SoleMember(candidates, package);
    SoleMember(others, package);
  }

  lemma {:induction false} SoleMember(s: set<string>, p: string)
    ensures s == {p} <==> p in s && forall q :: q in s ==> q == p
  {
  }

  method BuildServicePackageMap(items: seq<PathItem>) returns (packages: map<string, string>)
    ensures Infers(AllCalls(items), packages)
  {
    hide Infers, Indexes;
    var index := Index(map[], map[]);
    NothingIndexed();
    for i := 0 to |items|
      invariant Indexes(index, CallsOf(items, i))
    {
      index := IndexItem(index, items[i], CallsOf(items, i));
    }
    packages := SelectPackages(index, CallsOf(items, |items|));
  }

  lemma {:induction false} NothingIndexed()
    ensures Indexes(Index(map[], map[]), [])
  {
  }

  /** The loop over the operations of a path. */
  method IndexItem(before: Index, item: PathItem, ghost calls: seq<Call>) returns (index: Index)
    requires Indexes(before, calls)
    ensures Indexes(index, calls + DeclaredCalls(item.path, PathOperations(item), 4))
  {
    hide Indexes;
    index := before;
    var operations := PathOperations(item);
    assert calls + [] == calls;
    for k := 0 to |operations|
      invariant Indexes(index, calls + DeclaredCalls(item.path, operations, k))
    {
      ghost var done := calls + DeclaredCalls(item.path, operations, k);
      if operations[k].operation.Some? {
        var operation := operations[k].operation.value;
        index := IndexCall(index, item.path, operation, done);
        assert done + [Call(item.path, operation)] == calls + DeclaredCalls(item.path, operations, k + 1);
      } else {
        assert done == calls + DeclaredCalls(item.path, operations, k + 1);
      }
    }
  }

  // ----- no order matters -----

  /** The same schema but for the order of its properties, at every depth. */
  ghost predicate SameSchema(a: Schema, b: Schema)
    decreases a, 0
  {
    && a.ref == b.ref
    && (a.items.Some? <==> b.items.Some?)
    && (a.items.Some? ==> SameSchema(a.items.value, b.items.value))
    && (forall x :: x in a.properties ==> AmongRight(x, b.properties))
    && (forall y :: y in b.properties ==> AmongLeft(a.properties, y))
  }

  ghost predicate AmongRight(x: Schema, ys: seq<Schema>)
    decreases x, 1
  {
    exists j :: 0 <= j < |ys| && SameSchema(x, ys[j])
  }

  ghost predicate AmongLeft(xs: seq<Schema>, y: Schema)
    decreases xs, 0
  {
    exists i :: 0 <= i < |xs| && SameSchema(xs[i], y)
  }

  /** The same operation but for the order of its parameters, media types and responses. */
  ghost predicate SameOperation(a: Operation, b: Operation) {
    && a.operationId == b.operationId
    && (forall x :: Has(a, x) ==> HasLike(b, x))
    && (forall y :: Has(b, y) ==> LikeHas(a, y))
  }

  ghost predicate HasLike(b: Operation, x: Schema) { exists y :: Has(b, y) && SameSchema(x, y) }

  ghost predicate LikeHas(a: Operation, y: Schema) { exists x :: Has(a, x) && SameSchema(x, y) }

  ghost predicate SameCall(a: Call, b: Call) {
    a.path == b.path && SameOperation(a.operation, b.operation)
  }

  /** The same path item but for the orders in its operations. */
  ghost predicate SameItem(a: PathItem, b: PathItem) {
    && a.path == b.path && SameOptional(a.get, b.get) && SameOptional(a.post, b.post) && SameOptional(a.put, b.put)
    && SameOptional(a.delete, b.delete)
  }

  ghost predicate SameOptional(a: Option<Operation>, b: Option<Operation>) {
    (a.Some? <==> b.Some?) && (a.Some? ==> SameOperation(a.value, b.value))
  }

  /** The same document but for the order in which its maps are iterated. */
  ghost predicate SameDocument(a: seq<PathItem>, b: seq<PathItem>) {
    && (forall x :: x in a ==> exists y :: y in b && SameItem(x, y))
    && (forall y :: y in b ==> exists x :: x in a && SameItem(x, y))
  }

  /** The same calls but for the orders in their operations. */
  ghost predicate SameCalls(a: seq<Call>, b: seq<Call>) {
    && (forall x :: x in a ==> exists y :: y in b && SameCall(x, y))
    && (forall y :: y in b ==> exists x :: x in a && SameCall(x, y))
  }

  lemma {:induction false} SameSchemaRefers(a: Schema, b: Schema, ref: string)
    requires SameSchema(a, b)
    ensures Refers(a, ref) <==> Refers(b, ref)
    decreases a
  {
    hide SameSchema;
    SameSchemaParts(a, b);
    if a.items.Some? {
      SameSchemaRefers(a.items.value, b.items.value, ref);
    }
    if exists i :: 0 <= i < |a.properties| && Refers(a.properties[i], ref) {
      var i :| 0 <= i < |a.properties| && Refers(a.properties[i], ref);
      assert AmongRight(a.properties[i], b.properties);
      var j :| 0 <= j < |b.properties| && SameSchema(a.properties[i], b.properties[j]);
      SameSchemaRefers(a.properties[i], b.properties[j], ref);
    }
    if exists j :: 0 <= j < |b.properties| && Refers(b.properties[j], ref) {
      var j :| 0 <= j < |b.properties| && Refers(b.properties[j], ref);
      assert AmongLeft(a.properties, b.properties[j]);
      var i :| 0 <= i < |a.properties| && SameSchema(a.properties[i], b.properties[j]);
      SameSchemaRefers(a.properties[i], b.properties[j], ref);
    }
  }

  lemma {:induction false} SameSchemaParts(a: Schema, b: Schema)
    requires SameSchema(a, b)
    ensures a.ref == b.ref && (a.items.Some? <==> b.items.Some?)
    ensures a.items.Some? ==> SameSchema(a.items.value, b.items.value)
    ensures forall x :: x in a.properties ==> AmongRight(x, b.properties)
    ensures forall y :: y in b.properties ==> AmongLeft(a.properties, y)
  {
  }

  lemma {:induction false} SameSchemaMentions(path: string, a: Schema, b: Schema, package: string)
    requires SameSchema(a, b)
    ensures Mentions(path, a, package) <==> Mentions(path, b, package)
  {
    hide SameSchema, Refers, Qualifies;
    forall ref ensures Refers(a, ref) <==> Refers(b, ref) {
      SameSchemaRefers(a, b, ref);
    }
  }

  lemma {:induction false} SameCallMentions(a: Call, b: Call, package: string)
    requires SameCall(a, b)
    ensures CallMentions(a, package) <==> CallMentions(b, package)
  {
    hide SameSchema, Mentions, Has;
    if CallMentions(a, package) {
      var x :| Has(a.operation, x) && Mentions(a.path, x, package);
      assert HasLike(b.operation, x);
      var y :| Has(b.operation, y) && SameSchema(x, y);
      SameSchemaMentions(a.path, x, y, package);
    }
    if CallMentions(b, package) {
      var y :| Has(b.operation, y) && Mentions(b.path, y, package);
      assert LikeHas(a.operation, y);
      var x :| Has(a.operation, x) && SameSchema(x, y);
      SameSchemaMentions(a.path, x, y, package);
    }
  }

  lemma {:induction false} SameKey(a: Call, b: Call)
    requires SameCall(a, b)
    ensures KeyOf(a) == KeyOf(b) && a.path == b.path
  {
  }

  /** One way: what holds of some call of `a` holds of some call of `b`. */
  lemma {:induction false} CarriesOver(a: seq<Call>, b: seq<Call>, key: string, terminal: string, package: string)
    requires forall x :: x in a ==> exists y :: y in b && (SameCall(x, y) || SameCall(y, x))
    ensures Known(a, key) ==> Known(b, key)
    ensures Candidate(a, key, package) ==> Candidate(b, key, package)
    ensures OfTerminal(a, terminal, package) ==> OfTerminal(b, terminal, package)
  {
    hide SameCall, KeyOf, PathTerminal, CallMentions;
    if Known(a, key) {
      var k :| 0 <= k < |a| && KeyOf(a[k]) == key;
      var j := Partner(a, b, k, package);
    }
    if Candidate(a, key, package) {
      var k :| 0 <= k < |a| && KeyOf(a[k]) == key && CallMentions(a[k], package);
      var j := Partner(a, b, k, package);
    }
    if OfTerminal(a, terminal, package) {
      var k :| 0 <= k < |a| && KeyOf(a[k]) != "" && PathTerminal(a[k].path) == terminal && CallMentions(a[k], package);
      var j := Partner(a, b, k, package);
    }
  }

  lemma {:induction false} Partner(a: seq<Call>, b: seq<Call>, k: nat, package: string) returns (j: nat)
    requires k < |a| && forall x :: x in a ==> exists y :: y in b && (SameCall(x, y) || SameCall(y, x))
    ensures j < |b| && KeyOf(b[j]) == KeyOf(a[k]) && b[j].path == a[k].path
    ensures CallMentions(a[k], package) <==> CallMentions(b[j], package)
  {
    hide SameCall, KeyOf, CallMentions;
    assert a[k] in a;
    var y :| y in b && (SameCall(a[k], y) || SameCall(y, a[k]));
    j :| 0 <= j < |b| && b[j] == y;
    if SameCall(a[k], y) {
      SameKey(a[k], y);
      SameCallMentions(a[k], y, package);
    } else {
      SameKey(y, a[k]);
      SameCallMentions(y, a[k], package);
    }
  }

  lemma {:induction false} SameCallsSameMap(a: seq<Call>, b: seq<Call>, m: map<string, string>, n: map<string, string>)
    requires SameCalls(a, b) && Infers(a, m) && Infers(b, n)
    ensures m == n
  {
    hide SameCall, Known, Candidate, OfTerminal;
    forall key, package ensures Owns(a, key, package) <==> Owns(b, key, package) {
      OwnsIsShared(a, b, key, package);
    }
    hide Owns;
    assert forall key :: key in m ==> Maps(m, key, m[key]) && Maps(n, key, m[key]);
    assert forall key :: key in n ==> Maps(n, key, n[key]) && Maps(m, key, n[key]);
  }

  /** The path item has the operation under the HTTP method. */
  ghost predicate Serves(item: PathItem, verb: string, operation: Operation) {
    || (verb == "GET" && item.get == Some(operation))
    || (verb == "POST" && item.post == Some(operation))
    || (verb == "PUT" && item.put == Some(operation))
    || (verb == "DELETE" && item.delete == Some(operation))
  }

  ghost predicate Declares(item: PathItem, call: Call) {
    call.path == item.path && exists verb :: Serves(item, verb, call.operation)
  }

  lemma {:induction false} DeclaredAre(path: string, operations: seq<PathOperation>, n: nat, call: Call)
    requires n <= |operations|
    ensures call in DeclaredCalls(path, operations, n) <==>
            call.path == path && exists k :: 0 <= k < n && operations[k].operation == Some(call.operation)
  {
    if n > 0 {
      DeclaredAre(path, operations, n - 1, call);
    }
  }

  lemma {:induction false} ServesIff(item: PathItem, verb: string, operation: Operation)
    ensures Serves(item, verb, operation) <==>
            exists k :: 0 <= k < 4 && PathOperations(item)[k] == PathOperation(verb, Some(operation))
  {
    var operations := PathOperations(item);
    assert operations[0].verb == "GET" && operations[1].verb == "POST" && operations[2].verb == "PUT"
           && operations[3].verb == "DELETE";
    assert operations[0].operation == item.get && operations[1].operation == item.post
           && operations[2].operation == item.put && operations[3].operation == item.delete;
  }

  lemma {:induction false} CallsAre(items: seq<PathItem>, n: nat, call: Call)
    requires n <= |items|
    ensures call in CallsOf(items, n) <==> exists i :: 0 <= i < n && Declares(items[i], call)
  {
    hide DeclaredCalls, PathOperations;
    if n > 0 {
      CallsAre(items, n - 1, call);
      DeclaredByItem(items[n - 1], call);
    }
  }

  lemma {:induction false} DeclaredByItem(item: PathItem, call: Call)
    ensures |PathOperations(item)| == 4
    ensures call in DeclaredCalls(item.path, PathOperations(item), 4) <==> Declares(item, call)
  {
    hide Serves, DeclaredCalls;
    var operations := PathOperations(item);
    DeclaredAre(item.path, operations, 4, call);
    if Declares(item, call) {
      var verb :| Serves(item, verb, call.operation);
      ServesIff(item, verb, call.operation);
    }
    if k :| 0 <= k < 4 && operations[k].operation == Some(call.operation) {
      ServesIff(item, operations[k].verb, call.operation);
    }
  }

  /** The operations of a document are those of its paths under GET, POST, PUT and DELETE. */
  lemma {:induction false} AllCallsAre(items: seq<PathItem>, call: Call)
    ensures call in AllCalls(items) <==> exists item :: item in items && Declares(item, call)
  {
    hide Declares, CallsOf;
    CallsAre(items, |items|, call);
  }

  /** Reordered documents make reordered calls. */
  lemma {:induction false} SameDocumentSameCalls(a: seq<PathItem>, b: seq<PathItem>)
    requires SameDocument(a, b)
    ensures SameCalls(AllCalls(a), AllCalls(b))
  {
    hide AllCalls, SameItem, SameCall, Declares;
    forall x | x in AllCalls(a) ensures exists y :: y in AllCalls(b) && SameCall(x, y) {
      AllCallsAre(a, x);
      var item :| item in a && Declares(item, x);
      var other :| other in b && SameItem(item, other);
      var y := DeclaredToo(item, other, x);
      AllCallsAre(b, y);
    }
    forall y | y in AllCalls(b) ensures exists x :: x in AllCalls(a) && SameCall(x, y) {
      AllCallsAre(b, y);
      var other :| other in b && Declares(other, y);
      var item :| item in a && SameItem(item, other);
      var x := DeclaredBefore(item, other, y);
      AllCallsAre(a, x);
    }
  }

  lemma {:induction false} DeclaredToo(item: PathItem, other: PathItem, x: Call) returns (y: Call)
    requires SameItem(item, other) && Declares(item, x)
    ensures Declares(other, y) && SameCall(x, y)
  {
    hide SameOperation;
    var verb :| Serves(item, verb, x.operation);
    var found := if verb == "GET" then other.get else if verb == "POST" then other.post
                 else if verb == "PUT" then other.put else other.delete;
    y := Call(other.path, found.value);
    assert Serves(other, verb, y.operation);
  }

  lemma {:induction false} DeclaredBefore(item: PathItem, other: PathItem, y: Call) returns (x: Call)
    requires SameItem(item, other) && Declares(other, y)
    ensures Declares(item, x) && SameCall(x, y)
  {
    hide SameOperation;
    var verb :| Serves(other, verb, y.operation);
    var found := if verb == "GET" then item.get else if verb == "POST" then item.post
                 else if verb == "PUT" then item.put else item.delete;
    x := Call(item.path, found.value);
    assert Serves(item, verb, x.operation);
  }

  /** Whatever the orders in the two readings of a document, `BuildServicePackageMap` returns the same map. */
  lemma {:induction false} OrderDoesNotMatter(a: seq<PathItem>, b: seq<PathItem>, m: map<string, string>,
                                              n: map<string, string>)
    requires SameDocument(a, b) && Infers(AllCalls(a), m) && Infers(AllCalls(b), n)
    ensures m == n
  {
    hide Infers, AllCalls, SameCalls, SameDocument;
    SameDocumentSameCalls(a, b);
    SameCallsSameMap(AllCalls(a), AllCalls(b), m, n);
  }

  lemma {:induction false} OwnsIsShared(a: seq<Call>, b: seq<Call>, key: string, package: string)
    requires SameCalls(a, b)
    ensures Owns(a, key, package) <==> Owns(b, key, package)
  {
    hide SameCall, Known, Candidate, OfTerminal, Before;
    var terminal := Before(key, NUL);
    forall p
      ensures (Known(a, key) <==> Known(b, key)) && (Candidate(a, key, p) <==> Candidate(b, key, p)) &&
              (OfTerminal(a, terminal, p) <==> OfTerminal(b, terminal, p))
    {
      CarriesOver(a, b, key, terminal, p);
      CarriesOver(b, a, key, terminal, p);
    }
  }

  // ----- a permission is bound to its own terminal -----

  ghost predicate PathsNulFree(calls: seq<Call>) {
    forall k :: 0 <= k < |calls| ==> NUL !in calls[k].path
  }

  /** However the package was found, its terminal is that of the path: the second segment of its name from the end
      is the third of the path. */
  lemma {:induction false} PackageIsOfThePathTerminal(calls: seq<Call>, packages: map<string, string>, call: Call)
    requires Infers(calls, packages) && PathsNulFree(calls) && NUL !in call.path && KeyOf(call) in packages
    ensures PackageTerminal(packages[KeyOf(call)]) == PathTerminal(call.path)
  {
    hide CallMentions, PathTerminal, PackageTerminal, Before, After, KeyOf;
    var key := KeyOf(call);
    var package := packages[key];
    assert Maps(packages, key, package);
    KeyTerminal(calls, call, key);
    if Candidate(calls, key, package) {
      var k :| 0 <= k < |calls| && KeyOf(calls[k]) == key && CallMentions(calls[k], package);
      MentionedTerminal(calls[k], package);
      KeyTerminal(calls, calls[k], key);
    } else {
      var k :| 0 <= k < |calls| && PathTerminal(calls[k].path) == Before(key, NUL) && CallMentions(calls[k], package);
      MentionedTerminal(calls[k], package);
    }
  }

  lemma {:induction false} KeyTerminal(calls: seq<Call>, call: Call, key: string)
    requires NUL !in call.path && KeyOf(call) == key && Known(calls, key)
    ensures Before(key, NUL) == PathTerminal(call.path)
  {
    hide Before, After, PathTerminal, ParseOperationId;
    TerminalIsFrom(call.path);
    KeyParts(call.path, ParseOperationId(call.operation.operationId).0);
  }

  lemma {:induction false} MentionedTerminal(call: Call, package: string)
    requires CallMentions(call, package)
    ensures PackageTerminal(package) == PathTerminal(call.path) && package != ""
  {
    hide Refers, Has, PackageTerminal, PathTerminal, PackageOfRef;
  }

  /** The permission record of an operation: the runtime name of its RPC, with where it is served. */
  datatype Record = Record(serviceName: string, operation: string, verb: string, path: string)

  /** parseOperation, without the descriptions. */
  function ParseOperation(path: string, verb: string, operation: Option<Operation>,
                          packages: map<string, string>): Option<Record> {
    if operation.None? then None
    else
      var (service, rpc) := ParseOperationId(operation.value.operationId);
      var key := ServiceKey(path, service);
      if service == "" || rpc == "" || key !in packages || packages[key] == "" then None
      else
        var serviceName := packages[key] + "." + service;
        Some(Record(serviceName, "/" + serviceName + "/" + rpc, verb, path))
  }

  /** An operation gets a record just when its service has a package, and the record names the RPC of that package,
      whose terminal is that of the path it is served on. */
  lemma {:induction false} RecordNamesRpcOfItsTerminal(items: seq<PathItem>, packages: map<string, string>,
                                                       call: Call, verb: string)
    requires Infers(AllCalls(items), packages) && PathsNulFree(AllCalls(items)) && NUL !in call.path
    ensures var record := ParseOperation(call.path, verb, Some(call.operation), packages);
            && (record.Some? <==> exists p :: Owns(AllCalls(items), KeyOf(call), p))
            && (record.Some? ==>
                  exists package, service, rpc ::
                    && Owns(AllCalls(items), KeyOf(call), package)
                    && record.value == Record(package + "." + service,
                                              "/" + (package + "." + service) + "/" + rpc, verb, call.path)
                    && call.operation.operationId == service + ['_'] + rpc && '_' !in service
                    && PackageTerminal(package) == PathTerminal(call.path))
  {
    hide AllCalls, PathTerminal, PackageTerminal, Before, After, Owns;
    var calls, key := AllCalls(items), KeyOf(call);
    var (service, rpc) := ParseOperationId(call.operation.operationId);
    if key in packages {
      assert Maps(packages, key, packages[key]);
      OwnedIsNamed(calls, key, packages[key]);
      PackageIsOfThePathTerminal(calls, packages, call);
      CutAgain(call.operation.operationId, '_');
    } else {
      assert forall p :: !Maps(packages, key, p);
    }
  }

  lemma {:induction false} OwnedIsNamed(calls: seq<Call>, key: string, package: string)
    requires Owns(calls, key, package)
    ensures package != "" && key != ""
  {
    hide CallMentions, KeyOf, PathTerminal;
    if Candidate(calls, key, package) {
      var k :| 0 <= k < |calls| && KeyOf(calls[k]) == key && CallMentions(calls[k], package);
      MentionedTerminal(calls[k], package);
    } else {
      var k :| 0 <= k < |calls| && CallMentions(calls[k], package);
      MentionedTerminal(calls[k], package);
    }
  }

  /** Some of the first `n` operations of the path item makes the record. */
  ghost predicate Makes(item: PathItem, n: nat, packages: map<string, string>, record: Record)
    requires n <= 4
  {
    exists k :: 0 <= k < n && ParseOperation(item.path, PathOperations(item)[k].verb, PathOperations(item)[k].operation,
                                             packages) == Some(record)
  }

  lemma {:induction false} MakesIff(item: PathItem, packages: map<string, string>, record: Record)
    ensures Makes(item, 4, packages, record) <==>
            exists verb, operation ::
              Serves(item, verb, operation) &&
                  ParseOperation(item.path, verb, Some(operation), packages) == Some(record)
  {
    hide ParseOperation, Serves;
    var operations := PathOperations(item);
    if Makes(item, 4, packages, record) {
      var k :| 0 <= k < 4 && ParseOperation(item.path, operations[k].verb, operations[k].operation, packages)
                             == Some(record);
      NoOperation(item.path, operations[k].verb, packages);
      ServesIff(item, operations[k].verb, operations[k].operation.value);
    }
    if verb, operation :|
      Serves(item, verb, operation) && ParseOperation(item.path, verb, Some(operation), packages) == Some(record) {
      ServesIff(item, verb, operation);
      var k :| 0 <= k < 4 && operations[k] == PathOperation(verb, Some(operation));
    }
  }

  lemma {:induction false} NoOperation(path: string, verb: string, packages: map<string, string>)
    ensures ParseOperation(path, verb, None, packages) == None
  {
  }

  /** OpenAPIDataToBaseAPI, without the sort at its end: first the packages, then the records. */
  method OpenApiDataToBaseApi(items: seq<PathItem>) returns (records: seq<Record>, packages: map<string, string>)
    ensures Infers(AllCalls(items), packages)
    ensures forall record :: record in records <==>
              exists item, verb, operation ::
                && item in items && Serves(item, verb, operation)
                && ParseOperation(item.path, verb, Some(operation), packages) == Some(record)
  {
    hide Infers, ParseOperation, Serves, AllCalls;
    packages := BuildServicePackageMap(items);
    records := [];
    for i := 0 to |items|
      invariant forall r :: r in records <==> exists j :: 0 <= j < i && Makes(items[j], 4, packages, r)
    {
      var operations := PathOperations(items[i]);
      ghost var before := records;
      for k := 0 to |operations|
        invariant forall r :: r in records <==> r in before || Makes(items[i], k, packages, r)
      {
        var record := ParseOperation(items[i].path, operations[k].verb, operations[k].operation, packages);
        if record.Some? {
          records := records + [record.value];
        }
      }
    }
    forall r
      ensures r in records <==> exists item :: item in items && Makes(item, 4, packages, r)
    {
    }
    forall item, r
      ensures Makes(item, 4, packages, r) <==>
              exists verb, operation ::
                Serves(item, verb, operation) && ParseOperation(item.path, verb, Some(operation), packages) == Some(r)
    {
      MakesIff(item, packages, r);
    }
  }
}

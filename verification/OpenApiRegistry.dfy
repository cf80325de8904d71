/** The registry of OpenAPI documents (resource/openapi/registry.go).

    Four indexes describe the same documents: the documents in registration order, the documents by
    key and locale, the owner of each HTTP operation in each locale, and the document contents kept
    for parsing. `Register` rebuilds copies of all four and replaces them only when every document
    is accepted. What libraries compute is an argument (`Library`). */
module OpenApiRegistry {
  import opened Common

  type Data = seq<bv8>

  datatype Document = Document(key: string, name: string, locale: string, data: Data)

  datatype Operation = Operation(path: string, verb: string)

  /** Language tags, letter case, Accept-Language candidates and YAML: `operations` are the paths and
      their members in the order in which the decoded maps are iterated. */
  datatype Library = Library(
    normalize: string -> string,
    candidates: string -> seq<string>,
    upper: string -> string,
    lower: string -> string,
    operations: Data -> Option<seq<Operation>>)

  datatype Error = InvalidDocument | DuplicateDocument | UnreadableDocument | DuplicateOperation

  const HTTP_METHODS: set<string> := {"delete", "get", "head", "options", "patch", "post", "put", "trace"}

  // ----- keys -----

  function ApiKey(lib: Library, path: string, verb: string): string { lib.upper(verb) + [NUL] + path }

  function DocumentKey(key: string, locale: string): string { key + [NUL] + locale }

  function LocaleApiKey(locale: string, apiKey: string): string { locale + [NUL] + apiKey }

  predicate IsKeyStart(c: char) { 'a' <= c <= 'z' || 'A' <= c <= 'Z' || '0' <= c <= '9' }

  /** The pattern of document keys: a letter or digit, then letters, digits, dots, underscores and hyphens. */
  predicate ValidKey(key: string) {
    key != [] && IsKeyStart(key[0]) && forall k :: 0 <= k < |key| ==> IsKeyStart(key[k]) || key[k] in "._-"
  }

  predicate ValidDocument(lib: Library, d: Document) {
    ValidKey(d.key) && d.name != [] && d.data != [] && (d.locale == "" || lib.normalize(d.locale) == d.locale)
  }

  function ApiKeysOf(lib: Library, operations: seq<Operation>): seq<string> {
    if operations == [] then []
    else
      var last := operations[|operations| - 1];
      ApiKeysOf(lib, operations[..|operations| - 1]) +
      (if lib.lower(last.verb) in HTTP_METHODS then [ApiKey(lib, last.path, last.verb)] else [])
  }

  function DocumentApiKeys(lib: Library, data: Data): Option<seq<string>> {
    match lib.operations(data)
    case None => None
    case Some(operations) => Some(ApiKeysOf(lib, operations))
  }

  /** The operation is one of the document's. */
  predicate Contains(lib: Library, d: Document, apiKey: string) {
    DocumentApiKeys(lib, d.data).Some? && apiKey in DocumentApiKeys(lib, d.data).value
  }

  // ----- registration -----

  datatype State = State(documents: seq<Document>, documentsByKey: map<string, Document>,
                         documentKeysByApi: map<string, string>, parsedDocuments: map<string, Data>)

  const EMPTY := State([], map[], map[], map[])

  /** Claims the operations from position `i` on for the owner, unless one is taken. */
  function Claim(owners: map<string, string>, locale: string, apiKeys: seq<string>, i: nat,
                 owner: string): Option<map<string, string>>
    requires i <= |apiKeys|
    decreases |apiKeys| - i
  {
    if i == |apiKeys| then Some(owners)
    else
      var index := LocaleApiKey(locale, apiKeys[i]);
      if index in owners then None else Claim(owners[index := owner], locale, apiKeys, i + 1, owner)
  }

  datatype Outcome = Accepted(state: State) | Rejected(error: Error)

  function RegisterOne(lib: Library, s: State, given: Document): Outcome {
    var d := given.(locale := lib.normalize(given.locale));
    if !ValidDocument(lib, d) then Rejected(InvalidDocument)
    else
      var key := DocumentKey(d.key, d.locale);
      if key in s.documentsByKey then
        if s.documentsByKey[key].name == d.name && s.documentsByKey[key].data == d.data then Accepted(s)
        else Rejected(DuplicateDocument)
      else
        match DocumentApiKeys(lib, d.data)
        case None => Rejected(UnreadableDocument)
        case Some(apiKeys) =>
          match Claim(s.documentKeysByApi, d.locale, apiKeys, 0, key)
          case None => Rejected(DuplicateOperation)
          case Some(owners) =>
            Accepted(State(s.documents + [d], s.documentsByKey[key := d], owners, s.parsedDocuments[key := d.data]))
  }

  function RegisterFrom(lib: Library, s: State, given: seq<Document>, i: nat): Outcome
    requires i <= |given|
    decreases |given| - i
  {
    if i == |given| then Accepted(s)
    else
      match RegisterOne(lib, s, given[i])
      case Rejected(e) => Rejected(e)
      case Accepted(t) => RegisterFrom(lib, t, given, i + 1)
  }

  // ----- lookups, as a reader would do them by scanning the documents -----

  /** The candidate locales of a request, the default locale last. */
  function Locales(lib: Library, locale: string): seq<string> { lib.candidates(locale) + [""] }

  /** The first document of exactly this locale that contains the operation. */
  function FirstOwner(lib: Library, documents: seq<Document>, locale: string, apiKey: string): Option<Document> {
    if documents == [] then None
    else if documents[0].locale == locale && Contains(lib, documents[0], apiKey) then Some(documents[0])
    else FirstOwner(lib, documents[1..], locale, apiKey)
  }

  /** The owner in the first locale that has one. */
  function ScanByOperation(lib: Library, documents: seq<Document>, locales: seq<string>,
                           apiKey: string): Option<Document> {
    if locales == [] then None
    else if FirstOwner(lib, documents, locales[0], apiKey).Some? then FirstOwner(lib, documents, locales[0], apiKey)
    else ScanByOperation(lib, documents, locales[1..], apiKey)
  }

  predicate HasKeyIn(documents: seq<Document>, key: string, locale: string) {
    exists k :: 0 <= k < |documents| && documents[k].key == key && documents[k].locale == locale
  }

  /** The first of the locales in which the key has a document. */
  function BestLocale(documents: seq<Document>, key: string, locales: seq<string>): Option<string> {
    if locales == [] then None
    else if HasKeyIn(documents, key, locales[0]) then Some(locales[0])
    else BestLocale(documents, key, locales[1..])
  }

  /** The documents among the first `n` that are at the best locale of their key. */
  function BestDocuments(documents: seq<Document>, locales: seq<string>, n: nat): seq<Document>
    requires n <= |documents|
  {
    if n == 0 then []
    else
      var d := documents[n - 1];
      BestDocuments(documents, locales, n - 1) +
          (if BestLocale(documents, d.key, locales) == Some(d.locale) then [d] else [])
  }

  // ----- the program -----

  class Registry {
    var documents: seq<Document>
    var documentsByKey: map<string, Document>
    var documentKeysByApi: map<string, string>
    var parsedDocuments: map<string, Data>

    function View(): State
      reads this
    {
      State(documents, documentsByKey, documentKeysByApi, parsedDocuments)
    }

    constructor ()
      ensures View() == EMPTY
    {
      documents, documentsByKey, documentKeysByApi, parsedDocuments := [], map[], map[], map[];
    }

    static method CollectApiKeys(lib: Library, data: Data) returns (apiKeys: Option<seq<string>>)
      ensures apiKeys == DocumentApiKeys(lib, data)
    {
      var decoded := lib.operations(data);
      if decoded.None? {
        return None;
      }
      var operations := decoded.value;
      var keys: seq<string> := [];
      for i := 0 to |operations|
        invariant keys == ApiKeysOf(lib, operations[..i])
      {
        assert operations[..i + 1][..i] == operations[..i];
        if lib.lower(operations[i].verb) in HTTP_METHODS {
          keys := keys + [ApiKey(lib, operations[i].path, operations[i].verb)];
        }
      }
      assert operations[..|operations|] == operations;
      return Some(keys);
    }

    /** Registers all documents or none: a failing call leaves the registry as it was. */
    method Register(lib: Library, given: seq<Document>) returns (error: Option<Error>)
      modifies this
      ensures var outcome := RegisterFrom(lib, old(View()), given, 0);
        match outcome
        case Accepted(t) => error.None? && View() == t
        case Rejected(e) => error == Some(e) && View() == old(View())
    {
      var registered, byKey, byApi, parsed := documents, documentsByKey, documentKeysByApi, parsedDocuments;
      var n := 0;
      while n < |given|
        invariant 0 <= n <= |given| && View() == old(View())
        invariant RegisterFrom(lib, State(registered, byKey, byApi, parsed), given, n) ==
                RegisterFrom(lib, old(View()), given, 0)
      {
        var document := given[n].(locale := lib.normalize(given[n].locale));
        if !ValidDocument(lib, document) {
          return Some(InvalidDocument);
        }
        var documentKey := DocumentKey(document.key, document.locale);
        if documentKey in byKey {
          var existing := byKey[documentKey];
          if existing.name == document.name && existing.data == document.data {
            n := n + 1;
            continue;
          }
          return Some(DuplicateDocument);
        }
        var apiKeys := CollectApiKeys(lib, document.data);
        if apiKeys.None? {
          return Some(UnreadableDocument);
        }
        ghost var owners := byApi;
        var i := 0;
        while i < |apiKeys.value|
          invariant 0 <= i <= |apiKeys.value|
          invariant Claim(byApi, document.locale, apiKeys.value, i, documentKey)
                    == Claim(owners, document.locale, apiKeys.value, 0, documentKey)
        {
          var apiIndexKey := LocaleApiKey(document.locale, apiKeys.value[i]);
          if apiIndexKey in byApi {
            return Some(DuplicateOperation);
          }
          byApi := byApi[apiIndexKey := documentKey];
          i := i + 1;
        }
        registered := registered + [document];
        byKey := byKey[documentKey := document];
        parsed := parsed[documentKey := document.data];
        n := n + 1;
      }
      documents, documentsByKey, documentKeysByApi, parsedDocuments := registered, byKey, byApi, parsed;
      return None;
    }

    method DocumentByOperationForLocale(lib: Library, locale: string, path: string, verb: string)
      returns (found: Option<Document>)
      requires Consistent(lib, View()) &&
              (forall k :: 0 <= k < |lib.candidates(locale)| ==> NulFree(lib.candidates(locale)[k]))
      ensures found == ScanByOperation(lib, documents, Locales(lib, locale), ApiKey(lib, path, verb))
    {
      var apiKey := ApiKey(lib, path, verb);
      var locales := Locales(lib, locale);
      var i := 0;
      while i < |locales|
        invariant 0 <= i <= |locales|
        invariant ScanByOperation(lib, documents, locales[i..], apiKey) ==
                ScanByOperation(lib, documents, locales, apiKey)
      {
        OwnerIndexIsScan(lib, View(), locales[i], apiKey);
        var index := LocaleApiKey(locales[i], apiKey);
        if index in documentKeysByApi {
          var documentKey := documentKeysByApi[index];
          return Some(documentsByKey[documentKey]);
        }
        assert locales[i..][1..] == locales[i + 1..];
        i := i + 1;
      }
      return None;
    }

    /** The cached content for an operation is that of the same document. */
    method ParsedDocumentByOperationForLocale(lib: Library, locale: string, path: string, verb: string)
      returns (cached: Option<Data>)
      requires Consistent(lib, View()) &&
              (forall k :: 0 <= k < |lib.candidates(locale)| ==> NulFree(lib.candidates(locale)[k]))
      ensures var d := ScanByOperation(lib, documents, Locales(lib, locale), ApiKey(lib, path, verb));
        cached == if d.None? then None else Some(d.value.data)
    {
      var apiKey := ApiKey(lib, path, verb);
      var locales := Locales(lib, locale);
      var i := 0;
      while i < |locales|
        invariant 0 <= i <= |locales|
        invariant ScanByOperation(lib, documents, locales[i..], apiKey) ==
                ScanByOperation(lib, documents, locales, apiKey)
      {
        OwnerIndexIsScan(lib, View(), locales[i], apiKey);
        var index := LocaleApiKey(locales[i], apiKey);
        if index in documentKeysByApi {
          var documentKey := documentKeysByApi[index];
          return Some(parsedDocuments[documentKey]);
        }
        assert locales[i..][1..] == locales[i + 1..];
        i := i + 1;
      }
      return None;
    }

    /** For every key the document in the best locale, in registration order. */
    method DocumentsForLocale(lib: Library, locale: string) returns (result: seq<Document>)
      ensures result == BestDocuments(documents, Locales(lib, locale), |documents|)
    {
      var locales := Locales(lib, locale);
      var selected: map<string, Document> := map[];
      for i := 0 to |locales|
        invariant SelectsBest(documents, locales[..i], selected)
      {
        assert locales[..i + 1] == locales[..i] + [locales[i]];
        ghost var before := selected;
        for j := 0 to |documents|
          invariant SelectsNext(documents, locales[i], j, before, selected)
        {
          if documents[j].locale == locales[i] && documents[j].key !in selected {
            selected := selected[documents[j].key := documents[j]];
          }
        }
        SelectedLocale(documents, locales[..i], locales[i], before, selected);
      }
      assert locales[..|locales|] == locales;
      // The program's extra pass for the default locale, which was the last of the locales: it finds nothing to add.
      for j := 0 to |documents|
        invariant SelectsBest(documents, locales, selected)
      {
        var document := documents[j];
        if document.locale == "" {
          assert locales[|locales| - 1] == "";
          BestLocaleIsFirst(documents, document.key, locales);
          assert document.key in selected;
          if document.key !in selected {
            selected := selected[document.key := document];
          }
        }
      }
      result := [];
      for j := 0 to |documents|
        invariant result == BestDocuments(documents, locales, j)
      {
        var document := documents[j];
        if document.key !in selected || selected[document.key].locale != document.locale {
          continue;
        }
        result := result + [document];
      }
    }

    method HasDocumentsForLocale(lib: Library, locale: string) returns (has: bool)
      ensures has <==> BestDocuments(documents, Locales(lib, locale), |documents|) != []
    {
      var locales := Locales(lib, locale);
      SomeBestDocument(documents, locales);
      for k := 0 to |documents|
        invariant forall m :: 0 <= m < k ==> documents[m].locale !in locales
      {
        for l := 0 to |locales|
          invariant documents[k].locale !in locales[..l]
        {
          if documents[k].locale == locales[l] {
            return true;
          }
        }
        assert locales[..|locales|] == locales;
      }
      return false;
    }
  }

  // ----- agreement of the four indexes -----

  /** The normalised locales of the documents hold no NUL. */
  ghost predicate LocalesNulFree(lib: Library, given: seq<Document>) {
    forall k :: 0 <= k < |given| ==> NulFree(lib.normalize(given[k].locale))
  }

  ghost predicate DocumentsSound(lib: Library, documents: seq<Document>) {
    && (forall i :: 0 <= i < |documents| ==>
          ValidDocument(lib, documents[i]) && NulFree(documents[i].locale) &&
              DocumentApiKeys(lib, documents[i].data).Some?)
    && (forall i, j :: 0 <= i < j < |documents| ==>
          documents[i].key != documents[j].key || documents[i].locale != documents[j].locale)
  }

  function KeyOf(d: Document): string { DocumentKey(d.key, d.locale) }

  /** Document keys lead to the documents, and to their contents, and to nothing else. */
  ghost predicate KeysAgree(s: State) {
    && (forall i :: 0 <= i < |s.documents| ==>
          KeyOf(s.documents[i]) in s.documentsByKey && s.documentsByKey[KeyOf(s.documents[i])] == s.documents[i])
    && (forall key :: key in s.documentsByKey ==>
        s.documentsByKey[key] in s.documents && key == KeyOf(s.documentsByKey[key]))
    && s.parsedDocuments.Keys == s.documentsByKey.Keys
    && (forall key :: key in s.documentsByKey ==> s.parsedDocuments[key] == s.documentsByKey[key].data)
  }

  /** The owner index holds the operations of the documents, each with its document, and nothing else. */
  ghost predicate OwnersAgree(lib: Library, documents: seq<Document>, owners: map<string, string>) {
    && (forall i, api :: 0 <= i < |documents| && Contains(lib, documents[i], api) ==>
          LocaleApiKey(documents[i].locale, api) in owners
          && owners[LocaleApiKey(documents[i].locale, api)] == KeyOf(documents[i]))
    && (forall index :: index in owners ==> exists i, api :: IndexedBy(lib, documents, i, api, index))
  }

  ghost predicate IndexedBy(lib: Library, documents: seq<Document>, i: int, api: string, index: string) {
    0 <= i < |documents| && Contains(lib, documents[i], api) && index == LocaleApiKey(documents[i].locale, api)
  }

  ghost predicate Consistent(lib: Library, s: State) {
    DocumentsSound(lib, s.documents) && KeysAgree(s) && OwnersAgree(lib, s.documents, s.documentKeysByApi)
  }

  /** None of the operations from `i` on is taken or named twice. */
  ghost predicate FreeFrom(owners: map<string, string>, locale: string, apiKeys: seq<string>, i: nat) {
    && (forall k :: i <= k < |apiKeys| ==> LocaleApiKey(locale, apiKeys[k]) !in owners)
    && (forall j, k :: i <= j < k < |apiKeys| ==> apiKeys[j] != apiKeys[k])
  }

  /** The index has the operations from `i` on besides what it had. */
  ghost predicate ClaimedFrom(owners: map<string, string>, claimed: map<string, string>, locale: string,
                              apiKeys: seq<string>, i: nat, owner: string) {
    && (forall index :: index in claimed <==>
          index in owners || exists k :: i <= k < |apiKeys| && index == LocaleApiKey(locale, apiKeys[k]))
    && (forall index :: index in owners ==> claimed[index] == owners[index])
    && (forall k :: i <= k < |apiKeys| ==> claimed[LocaleApiKey(locale, apiKeys[k])] == owner)
  }

  lemma {:induction false} FreeStep(owners: map<string, string>, locale: string, apiKeys: seq<string>, i: nat,
                                    owner: string)
    requires i < |apiKeys| && NulFree(locale)
    ensures var index := LocaleApiKey(locale, apiKeys[i]);
      FreeFrom(owners, locale, apiKeys, i)
      <==> index !in owners && FreeFrom(owners[index := owner], locale, apiKeys, i + 1)
  {
    forall k | i < k < |apiKeys| && LocaleApiKey(locale, apiKeys[k]) == LocaleApiKey(locale, apiKeys[i])
      ensures apiKeys[k] == apiKeys[i]
    {
      JoinedKeysDiffer(locale, apiKeys[k], locale, apiKeys[i]);
    }
  }

  lemma {:induction false} ClaimedStep(owners: map<string, string>, claimed: map<string, string>, locale: string,
                                       apiKeys: seq<string>, i: nat, owner: string)
    requires i < |apiKeys| && LocaleApiKey(locale, apiKeys[i]) !in owners
    requires ClaimedFrom(owners[LocaleApiKey(locale, apiKeys[i]) := owner], claimed, locale, apiKeys, i + 1, owner)
    ensures ClaimedFrom(owners, claimed, locale, apiKeys, i, owner)
  {
    hide LocaleApiKey;
  }

  lemma {:induction false} ClaimAdds(owners: map<string, string>, locale: string, apiKeys: seq<string>, i: nat,
                                     owner: string)
    requires i <= |apiKeys| && NulFree(locale)
    ensures var claimed := Claim(owners, locale, apiKeys, i, owner);
      && (claimed.Some? <==> FreeFrom(owners, locale, apiKeys, i))
      && (claimed.Some? ==> ClaimedFrom(owners, claimed.value, locale, apiKeys, i, owner))
    decreases |apiKeys| - i
  {
    if i < |apiKeys| {
      hide FreeFrom, ClaimedFrom, LocaleApiKey;
      var index := LocaleApiKey(locale, apiKeys[i]);
      FreeStep(owners, locale, apiKeys, i, owner);
      ClaimAdds(owners[index := owner], locale, apiKeys, i + 1, owner);
      if Claim(owners, locale, apiKeys, i, owner).Some? {
        ClaimedStep(owners, Claim(owners, locale, apiKeys, i, owner).value, locale, apiKeys, i, owner);
      }
    }
  }

  lemma {:induction false} FirstOwnerIs(lib: Library, documents: seq<Document>, locale: string, apiKey: string)
    ensures match FirstOwner(lib, documents, locale, apiKey)
            case Some(d) => d in documents && d.locale == locale && Contains(lib, d, apiKey)
            case None => forall d :: d in documents && d.locale == locale ==> !Contains(lib, d, apiKey)
  {
    if documents != [] {
      FirstOwnerIs(lib, documents[1..], locale, apiKey);
      assert documents == [documents[0]] + documents[1..];
    }
  }

  /** In one locale the owner index answers as a scan over the documents would, and the cache with it. */
  lemma {:induction false} OwnerIndexIsScan(lib: Library, s: State, locale: string, apiKey: string)
    requires Consistent(lib, s) && NulFree(locale)
    ensures LocaleApiKey(locale, apiKey) in s.documentKeysByApi <==> FirstOwner(lib, s.documents, locale, apiKey).Some?
    ensures LocaleApiKey(locale, apiKey) in s.documentKeysByApi ==>
              var key := s.documentKeysByApi[LocaleApiKey(locale, apiKey)];
              && key in s.documentsByKey && key in s.parsedDocuments
              && FirstOwner(lib, s.documents, locale, apiKey) == Some(s.documentsByKey[key])
              && s.parsedDocuments[key] == s.documentsByKey[key].data
  {
    var index := LocaleApiKey(locale, apiKey);
    FirstOwnerIs(lib, s.documents, locale, apiKey);
    if index in s.documentKeysByApi {
      var i, api :| IndexedBy(lib, s.documents, i, api, index);
      JoinedKeysDiffer(locale, apiKey, s.documents[i].locale, api);
      assert s.documents[i] in s.documents;
    }
    match FirstOwner(lib, s.documents, locale, apiKey)
    case Some(d) =>
      var j :| 0 <= j < |s.documents| && s.documents[j] == d;
      assert Contains(lib, s.documents[j], apiKey);
    case None =>
  }

  lemma {:induction false} ValidKeyNulFree(key: string)
    requires ValidKey(key)
    ensures NulFree(key)
  {
  }

  /** In each locale an operation has at most one owner. */
  lemma {:induction false} OneOwner(lib: Library, s: State, i: nat, j: nat, apiKey: string)
    requires Consistent(lib, s) && i < |s.documents| && j < |s.documents|
    requires s.documents[i].locale == s.documents[j].locale
    requires Contains(lib, s.documents[i], apiKey) && Contains(lib, s.documents[j], apiKey)
    ensures i == j
  {
    var d, e := s.documents[i], s.documents[j];
    assert KeyOf(d) == s.documentKeysByApi[LocaleApiKey(d.locale, apiKey)] == KeyOf(e);
    JoinedKeysDiffer(d.key, d.locale, e.key, e.locale);
  }

  /** The key index knows a document exactly if one with this key and locale is registered. */
  lemma {:induction false} KeyIndexIsScan(lib: Library, s: State, key: string, locale: string)
    requires Consistent(lib, s) && NulFree(key)
    ensures DocumentKey(key, locale) in s.documentsByKey <==> HasKeyIn(s.documents, key, locale)
    ensures DocumentKey(key, locale) in s.documentsByKey ==>
              var d := s.documentsByKey[DocumentKey(key, locale)];
              d in s.documents && d.key == key && d.locale == locale
  {
    if DocumentKey(key, locale) in s.documentsByKey {
      var d := s.documentsByKey[DocumentKey(key, locale)];
      ValidKeyNulFree(d.key);
      JoinedKeysDiffer(key, locale, d.key, d.locale);
    }
  }

  // ----- operations behind their keys -----

  /** The member of a path is an operation, and upper-casing leaves its method free of NUL. */
  predicate IsHttp(lib: Library, operation: Operation) {
    lib.lower(operation.verb) in {"get", "put", "post", "delete", "options", "head", "patch", "trace"}
  }

  ghost predicate VerbsNulFree(lib: Library) {
    forall verb :: lib.lower(verb) in HTTP_METHODS ==> NulFree(lib.upper(verb))
  }

  /** The same path and, letter case aside, the same method. */
  predicate SameOperation(lib: Library, a: Operation, b: Operation) {
    a.path == b.path && lib.upper(a.verb) == lib.upper(b.verb)
  }

  /** The document has the operation. */
  ghost predicate Declares(lib: Library, d: Document, operation: Operation) {
    && lib.operations(d.data).Some?
    && exists k :: 0 <= k < |lib.operations(d.data).value| && IsHttp(lib, lib.operations(d.data).value[k])
                   && SameOperation(lib, lib.operations(d.data).value[k], operation)
  }

  /** Keys are equal exactly if path and upper-cased method are. */
  lemma {:induction false} ApiKeysTellApart(lib: Library, a: Operation, b: Operation)
    requires NulFree(lib.upper(a.verb)) && NulFree(lib.upper(b.verb))
    ensures ApiKey(lib, a.path, a.verb) == ApiKey(lib, b.path, b.verb) <==> SameOperation(lib, a, b)
  {
    if ApiKey(lib, a.path, a.verb) == ApiKey(lib, b.path, b.verb) {
      JoinedKeysDiffer(lib.upper(a.verb), a.path, lib.upper(b.verb), b.path);
    }
  }

  lemma {:induction false} ApiKeysAre(lib: Library, operations: seq<Operation>, apiKey: string)
    ensures apiKey in ApiKeysOf(lib, operations) <==>
            exists k :: 0 <= k < |operations| && IsHttp(lib, operations[k])
                        && apiKey == ApiKey(lib, operations[k].path, operations[k].verb)
  {
    hide ApiKey;
    if operations != [] {
      ApiKeysAre(lib, operations[..|operations| - 1], apiKey);
    }
  }

  /** A document contains the key of an operation exactly if it has the operation. */
  lemma {:induction false} ContainsIffDeclares(lib: Library, d: Document, operation: Operation)
    requires VerbsNulFree(lib) && NulFree(lib.upper(operation.verb))
    ensures Contains(lib, d, ApiKey(lib, operation.path, operation.verb)) <==> Declares(lib, d, operation)
  {
    hide ApiKey, SameOperation;
    if lib.operations(d.data).Some? {
      var operations := lib.operations(d.data).value;
      ApiKeysAre(lib, operations, ApiKey(lib, operation.path, operation.verb));
      forall k | 0 <= k < |operations| && IsHttp(lib, operations[k])
        ensures ApiKey(lib, operation.path, operation.verb) == ApiKey(lib, operations[k].path, operations[k].verb)
                <==> SameOperation(lib, operations[k], operation)
      {
        ApiKeysTellApart(lib, operations[k], operation);
      }
    }
  }

  /** No two operations of the document are the same, and none is in another document of its locale. */
  ghost predicate OperationsFree(lib: Library, documents: seq<Document>, d: Document)
    requires lib.operations(d.data).Some?
  {
    var operations := lib.operations(d.data).value;
    && (forall j, k :: 0 <= j < k < |operations| && IsHttp(lib, operations[j]) && IsHttp(lib, operations[k]) ==>
          !SameOperation(lib, operations[j], operations[k]))
    && (forall i, k :: 0 <= i < |documents| && documents[i].locale == d.locale && 0 <= k < |operations|
                       && IsHttp(lib, operations[k]) ==>
        !Declares(lib, documents[i], operations[k]))
  }

  ghost predicate KeysDistinct(keys: seq<string>) { forall j, k :: 0 <= j < k < |keys| ==> keys[j] != keys[k] }

  lemma {:induction false} KeysDistinctIff(lib: Library, operations: seq<Operation>)
    requires VerbsNulFree(lib)
    ensures KeysDistinct(ApiKeysOf(lib, operations)) <==>
            forall j, k :: 0 <= j < k < |operations| && IsHttp(lib, operations[j]) && IsHttp(lib, operations[k]) ==>
              !SameOperation(lib, operations[j], operations[k])
  {
    hide ApiKey, SameOperation;
    if operations != [] {
      var n := |operations| - 1;
      var front, last := operations[..n], operations[n];
      var keys, key := ApiKeysOf(lib, front), ApiKey(lib, last.path, last.verb);
      KeysDistinctIff(lib, front);
      ApiKeysAre(lib, front, key);
      if IsHttp(lib, last) {
        KeysDistinctAppend(keys, key);
        forall k | 0 <= k < n && IsHttp(lib, operations[k])
          ensures ApiKey(lib, front[k].path, front[k].verb) == key <==> SameOperation(lib, operations[k], last)
        {
          ApiKeysTellApart(lib, operations[k], last);
        }
      } else {
        assert ApiKeysOf(lib, operations) == keys;
      }
    }
  }

  lemma {:induction false} KeysDistinctAppend(keys: seq<string>, key: string)
    ensures KeysDistinct(keys + [key]) <==> KeysDistinct(keys) && key !in keys
  {
    var all := keys + [key];
    assert all[|keys|] == key && forall k :: 0 <= k < |keys| ==> all[k] == keys[k];
  }

  /** No key of the document is named twice or taken in its locale. */
  predicate KeysFree(lib: Library, documents: seq<Document>, d: Document) {
    match DocumentApiKeys(lib, d.data)
    case None => false
    case Some(keys) =>
      && (forall j, k :: 0 <= j < k < |keys| ==> keys[j] != keys[k])
      && (forall k :: 0 <= k < |keys| ==> FirstOwner(lib, documents, d.locale, keys[k]).None?)
  }

  lemma {:induction false} ClaimedIffFree(lib: Library, s: State, d: Document)
    requires Consistent(lib, s) && NulFree(d.locale) && DocumentApiKeys(lib, d.data).Some?
    ensures Claim(s.documentKeysByApi, d.locale, DocumentApiKeys(lib, d.data).value, 0, KeyOf(d)).Some?
            <==> KeysFree(lib, s.documents, d)
  {
    hide Consistent, Claim;
    var keys := DocumentApiKeys(lib, d.data).value;
    ClaimAdds(s.documentKeysByApi, d.locale, keys, 0, KeyOf(d));
    forall k | 0 <= k < |keys|
      ensures LocaleApiKey(d.locale, keys[k]) in s.documentKeysByApi
              <==> FirstOwner(lib, s.documents, d.locale, keys[k]).Some?
    {
      OwnerIndexIsScan(lib, s, d.locale, keys[k]);
    }
  }

  lemma {:induction false} SameDocumentIff(lib: Library, s: State, d: Document)
    requires Consistent(lib, s) && ValidKey(d.key) && KeyOf(d) in s.documentsByKey
    ensures HasKeyIn(s.documents, d.key, d.locale)
    ensures d in s.documents <==>
            s.documentsByKey[KeyOf(d)].name == d.name && s.documentsByKey[KeyOf(d)].data == d.data
  {
    ValidKeyNulFree(d.key);
    KeyIndexIsScan(lib, s, d.key, d.locale);
  }

  lemma {:induction false} UnknownIff(lib: Library, s: State, d: Document)
    requires Consistent(lib, s) && ValidKey(d.key) && KeyOf(d) !in s.documentsByKey
    ensures !HasKeyIn(s.documents, d.key, d.locale) && d !in s.documents
  {
    ValidKeyNulFree(d.key);
    KeyIndexIsScan(lib, s, d.key, d.locale);
  }

  lemma {:induction false} KeysFreeIff(lib: Library, documents: seq<Document>, d: Document)
    requires VerbsNulFree(lib) && lib.operations(d.data).Some?
    ensures KeysFree(lib, documents, d) <==> OperationsFree(lib, documents, d)
  {
    hide ApiKey, SameOperation, Declares, FirstOwner, Contains;
    var operations := lib.operations(d.data).value;
    var keys := ApiKeysOf(lib, operations);
    KeysDistinctIff(lib, operations);
    forall k | 0 <= k < |operations| && IsHttp(lib, operations[k])
      ensures var key := ApiKey(lib, operations[k].path, operations[k].verb);
        && key in keys
        && (FirstOwner(lib, documents, d.locale, key).None? <==>
            forall i :: 0 <= i < |documents| && documents[i].locale == d.locale ==>
              !Declares(lib, documents[i], operations[k]))
    {
      ApiKeysAre(lib, operations, ApiKey(lib, operations[k].path, operations[k].verb));
      NoOwnerIff(lib, documents, d.locale, operations[k]);
    }
    forall j | 0 <= j < |keys|
      ensures exists k :: 0 <= k < |operations| && IsHttp(lib, operations[k])
                          && keys[j] == ApiKey(lib, operations[k].path, operations[k].verb)
    {
      assert keys[j] in keys;
      ApiKeysAre(lib, operations, keys[j]);
    }
  }

  lemma {:induction false} NoOwnerIff(lib: Library, documents: seq<Document>, locale: string, operation: Operation)
    requires VerbsNulFree(lib) && NulFree(lib.upper(operation.verb))
    ensures FirstOwner(lib, documents, locale, ApiKey(lib, operation.path, operation.verb)).None? <==>
            forall i :: 0 <= i < |documents| && documents[i].locale == locale ==>
                !Declares(lib, documents[i], operation)
  {
    hide ApiKey, Declares, Contains;
    FirstOwnerIs(lib, documents, locale, ApiKey(lib, operation.path, operation.verb));
    forall i | 0 <= i < |documents|
      ensures Contains(lib, documents[i], ApiKey(lib, operation.path, operation.verb)) <==>
              Declares(lib, documents[i], operation)
    {
      ContainsIffDeclares(lib, documents[i], operation);
    }
    if d :| d in documents && d.locale == locale && Contains(lib, d, ApiKey(lib, operation.path, operation.verb)) {
      var i :| 0 <= i < |documents| && documents[i] == d;
    }
  }

  /** What a document is accepted on, read off the documents alone: it is well formed and either the same document is
      there already, or no document has its key and locale, it can be decoded, and no operation of it is the same as
      another of its own or of a document of its locale. */
  lemma {:induction false} AcceptedIff(lib: Library, s: State, given: Document)
    requires Consistent(lib, s) && NulFree(lib.normalize(given.locale)) && VerbsNulFree(lib)
    ensures var d := given.(locale := lib.normalize(given.locale));
      RegisterOne(lib, s, given).Accepted? <==>
        && ValidKey(d.key) && d.name != "" && d.data != [] && (d.locale == "" || lib.normalize(d.locale) == d.locale)
        && (d in s.documents || (!HasKeyIn(s.documents, d.key, d.locale) && lib.operations(d.data).Some?
                                 && OperationsFree(lib, s.documents, d)))
  {
    hide Consistent, KeysFree, OperationsFree, HasKeyIn, Claim;
    var d := given.(locale := lib.normalize(given.locale));
    if ValidDocument(lib, d) {
      if KeyOf(d) in s.documentsByKey {
        SameDocumentIff(lib, s, d);
      } else {
        UnknownIff(lib, s, d);
        if lib.operations(d.data).Some? {
          ClaimedIffFree(lib, s, d);
          KeysFreeIff(lib, s.documents, d);
        }
      }
    }
  }

  /** Why a document is rejected: the first of these that holds. */
  lemma {:induction false} RejectedFor(lib: Library, s: State, given: Document)
    requires Consistent(lib, s) && NulFree(lib.normalize(given.locale)) && VerbsNulFree(lib)
    requires RegisterOne(lib, s, given).Rejected?
    ensures var d := given.(locale := lib.normalize(given.locale));
      RegisterOne(lib, s, given).error ==
        if !ValidDocument(lib, d) then InvalidDocument
        else if HasKeyIn(s.documents, d.key, d.locale) then DuplicateDocument
        else if lib.operations(d.data).None? then UnreadableDocument
        else DuplicateOperation
  {
    hide Consistent, HasKeyIn, Claim;
    var d := given.(locale := lib.normalize(given.locale));
    if ValidDocument(lib, d) {
      if KeyOf(d) in s.documentsByKey {
        SameDocumentIff(lib, s, d);
      } else {
        UnknownIff(lib, s, d);
      }
    }
  }

  /** Adds the documents that are not there yet, in their order. */
  function Added(lib: Library, documents: seq<Document>, given: seq<Document>, i: nat): seq<Document>
    requires i <= |given|
    decreases |given| - i
  {
    if i == |given| then documents
    else
      var d := given[i].(locale := lib.normalize(given[i].locale));
      Added(lib, if d in documents then documents else documents + [d], given, i + 1)
  }

  /** An accepted call adds the given documents, their locales normalised, behind those that are there. */
  lemma {:induction false} RegisterAdds(lib: Library, s: State, given: seq<Document>, i: nat)
    requires i <= |given| && Consistent(lib, s) && LocalesNulFree(lib, given)
    requires RegisterFrom(lib, s, given, i).Accepted?
    ensures RegisterFrom(lib, s, given, i).state.documents == Added(lib, s.documents, given, i)
    decreases |given| - i
  {
    hide Consistent, RegisterOne;
    if i < |given| {
      RegisterOneKeepsConsistent(lib, s, given[i]);
      OneAdded(lib, s, given[i]);
      RegisterAdds(lib, RegisterOne(lib, s, given[i]).state, given, i + 1);
    }
  }

  lemma {:induction false} OneAdded(lib: Library, s: State, given: Document)
    requires Consistent(lib, s) && NulFree(lib.normalize(given.locale)) && RegisterOne(lib, s, given).Accepted?
    ensures var d := given.(locale := lib.normalize(given.locale));
      RegisterOne(lib, s, given).state.documents == if d in s.documents then s.documents else s.documents + [d]
  {
    hide Consistent, HasKeyIn, Claim;
    var d := given.(locale := lib.normalize(given.locale));
    if KeyOf(d) in s.documentsByKey {
      SameDocumentIff(lib, s, d);
    } else {
      UnknownIff(lib, s, d);
    }
  }

  /** Every given document is there afterwards, every other was there before, and those that were stay in front. */
  lemma {:induction false} AddedAre(lib: Library, documents: seq<Document>, given: seq<Document>, i: nat, d: Document)
    requires i <= |given|
    ensures documents <= Added(lib, documents, given, i)
    ensures d in Added(lib, documents, given, i) <==>
            d in documents || exists k :: i <= k < |given| && d == given[k].(locale := lib.normalize(given[k].locale))
    decreases |given| - i
  {
    if i < |given| {
      var first := given[i].(locale := lib.normalize(given[i].locale));
      AddedAre(lib, if first in documents then documents else documents + [first], given, i + 1, d);
    }
  }

  /** The owner index of the documents and one more, which has the operations `keys`. */
  lemma {:induction false} NothingElseOwned(lib: Library, documents: seq<Document>, owners: map<string, string>,
                                            d: Document, keys: seq<string>, index: string)
    requires OwnersAgree(lib, documents, owners) && DocumentApiKeys(lib, d.data) == Some(keys)
    requires index in owners || exists k :: 0 <= k < |keys| && index == LocaleApiKey(d.locale, keys[k])
    ensures exists i, api :: IndexedBy(lib, documents + [d], i, api, index)
  {
    hide DocumentApiKeys;
    if index in owners {
      var i, api :| IndexedBy(lib, documents, i, api, index);
      assert IndexedBy(lib, documents + [d], i, api, index);
    } else {
      var k :| 0 <= k < |keys| && index == LocaleApiKey(d.locale, keys[k]);
      assert IndexedBy(lib, documents + [d], |documents|, keys[k], index);
    }
  }

  lemma {:induction false} OwnersExtend(lib: Library, documents: seq<Document>, owners: map<string, string>,
                                        d: Document)
    requires OwnersAgree(lib, documents, owners) && NulFree(d.locale) && DocumentApiKeys(lib, d.data).Some?
    ensures var claimed := Claim(owners, d.locale, DocumentApiKeys(lib, d.data).value, 0, KeyOf(d));
      claimed.Some? ==> OwnersAgree(lib, documents + [d], claimed.value)
  {
    hide Claim, DocumentApiKeys, IndexedBy;
    var keys := DocumentApiKeys(lib, d.data).value;
    var claimed := Claim(owners, d.locale, keys, 0, KeyOf(d));
    var all := documents + [d];
    ClaimAdds(owners, d.locale, keys, 0, KeyOf(d));
    if claimed.Some? {
      forall index | index in claimed.value
        ensures exists i, api :: IndexedBy(lib, all, i, api, index)
      {
        NothingElseOwned(lib, documents, owners, d, keys, index);
      }
      forall i, api | 0 <= i < |all| && Contains(lib, all[i], api)
        ensures LocaleApiKey(all[i].locale, api) in claimed.value
        ensures claimed.value[LocaleApiKey(all[i].locale, api)] == KeyOf(all[i])
      {
        if i < |documents| {
          assert all[i] == documents[i];
        } else {
          var k :| 0 <= k < |keys| && keys[k] == api;
        }
      }
    }
  }

  lemma {:induction false} RegisterOneKeepsConsistent(lib: Library, s: State, given: Document)
    requires Consistent(lib, s) && NulFree(lib.normalize(given.locale))
    ensures match RegisterOne(lib, s, given)
            case Accepted(t) => Consistent(lib, t)
            case Rejected(_) => true
  {
    hide KeysAgree, OwnersAgree, Claim;
    var d := given.(locale := lib.normalize(given.locale));
    match RegisterOne(lib, s, given)
    case Rejected(_) =>
    case Accepted(t) =>
      if t != s {
        ValidKeyNulFree(d.key);
        KeyIndexIsScan(lib, s, d.key, d.locale);
        OwnersExtend(lib, s.documents, s.documentKeysByApi, d);
        KeysExtend(s, d, t.documentKeysByApi);
      }
  }

  lemma {:induction false} KeysExtend(s: State, d: Document, owners: map<string, string>)
    requires KeysAgree(s) && KeyOf(d) !in s.documentsByKey
    ensures KeysAgree(State(s.documents + [d], s.documentsByKey[KeyOf(d) := d], owners,
            s.parsedDocuments[KeyOf(d) := d.data]))
  {
    assert d in s.documents + [d];
  }

  /** After any sequence of registrations, accepted or rejected, the four indexes agree. */
  lemma {:induction false} RegisterKeepsConsistent(lib: Library, s: State, given: seq<Document>, i: nat)
    requires i <= |given| && Consistent(lib, s) && LocalesNulFree(lib, given)
    ensures match RegisterFrom(lib, s, given, i)
            case Accepted(t) => Consistent(lib, t)
            case Rejected(_) => true
    decreases |given| - i
  {
    hide Consistent, RegisterOne;
    if i < |given| {
      RegisterOneKeepsConsistent(lib, s, given[i]);
      match RegisterOne(lib, s, given[i])
      case Rejected(_) =>
      case Accepted(t) => RegisterKeepsConsistent(lib, t, given, i + 1);
    }
  }

  /** The registry after a sequence of calls, each with its documents. */
  function AfterCalls(lib: Library, calls: seq<seq<Document>>): State {
    if calls == [] then EMPTY
    else
      var s := AfterCalls(lib, calls[..|calls| - 1]);
      match RegisterFrom(lib, s, calls[|calls| - 1], 0)
      case Accepted(t) => t
      case Rejected(_) => s
  }

  lemma {:induction false} EveryRunIsConsistent(lib: Library, calls: seq<seq<Document>>)
    requires forall k :: 0 <= k < |calls| ==> LocalesNulFree(lib, calls[k])
    ensures Consistent(lib, AfterCalls(lib, calls))
  {
    if calls != [] {
      var init := calls[..|calls| - 1];
      EveryRunIsConsistent(lib, init);
      RegisterKeepsConsistent(lib, AfterCalls(lib, init), calls[|calls| - 1], 0);
    }
  }

  // ----- the document of an operation -----

  /** Whose operation it is in a request of the locale: a document that has it, of the first locale, the default one
      last, in which some document has. */
  lemma {:induction false} LookupIs(lib: Library, documents: seq<Document>, locale: string, operation: Operation)
    requires VerbsNulFree(lib) && NulFree(lib.upper(operation.verb))
    ensures var key, locales := ApiKey(lib, operation.path, operation.verb), lib.candidates(locale) + [""];
      match ScanByOperation(lib, documents, Locales(lib, locale), key)
      case None => forall i :: 0 <= i < |locales| ==> NoneDeclares(lib, documents, locales[i], operation)
      case Some(d) =>
        && d in documents && Declares(lib, d, operation)
        && exists i :: 0 <= i < |locales| && d.locale == locales[i]
                       && forall j :: 0 <= j < i ==> NoneDeclares(lib, documents, locales[j], operation)
  {
    ScanIs(lib, documents, Locales(lib, locale), operation);
  }

  ghost predicate NoneDeclares(lib: Library, documents: seq<Document>, locale: string, operation: Operation) {
    forall i :: 0 <= i < |documents| && documents[i].locale == locale ==> !Declares(lib, documents[i], operation)
  }

  lemma {:induction false} ScanIs(lib: Library, documents: seq<Document>, locales: seq<string>, operation: Operation)
    requires VerbsNulFree(lib) && NulFree(lib.upper(operation.verb))
    ensures var key := ApiKey(lib, operation.path, operation.verb);
      match ScanByOperation(lib, documents, locales, key)
      case None => forall i :: 0 <= i < |locales| ==> NoneDeclares(lib, documents, locales[i], operation)
      case Some(d) =>
        && d in documents && Declares(lib, d, operation)
        && exists i :: 0 <= i < |locales| && d.locale == locales[i]
                       && forall j :: 0 <= j < i ==> NoneDeclares(lib, documents, locales[j], operation)
  {
    hide ApiKey, Declares, Contains, NoneDeclares;
    var key := ApiKey(lib, operation.path, operation.verb);
    if locales != [] {
      NoOwnerIs(lib, documents, locales[0], operation);
      FirstOwnerIs(lib, documents, locales[0], key);
      if FirstOwner(lib, documents, locales[0], key).Some? {
        var d := FirstOwner(lib, documents, locales[0], key).value;
        ContainsIffDeclares(lib, d, operation);
      } else {
        ScanIs(lib, documents, locales[1..], operation);
        match ScanByOperation(lib, documents, locales[1..], key)
        case None =>
          assert forall i :: 1 <= i < |locales| ==> locales[i] == locales[1..][i - 1];
        case Some(d) =>
          var i :| 0 <= i < |locales[1..]| && d.locale == locales[1..][i]
                   && forall j :: 0 <= j < i ==> NoneDeclares(lib, documents, locales[1..][j], operation);
          assert d.locale == locales[i + 1];
          assert forall j :: 1 <= j < i + 1 ==> locales[j] == locales[1..][j - 1];
      }
    }
  }

  lemma {:induction false} NoOwnerIs(lib: Library, documents: seq<Document>, locale: string, operation: Operation)
    requires VerbsNulFree(lib) && NulFree(lib.upper(operation.verb))
    ensures FirstOwner(lib, documents, locale, ApiKey(lib, operation.path, operation.verb)).None? <==>
            NoneDeclares(lib, documents, locale, operation)
  {
    hide Declares;
    NoOwnerIff(lib, documents, locale, operation);
  }

  // ----- the documents for a locale -----

  /** `selected` holds, for each key that has one, a document in the best of the locales. */
  ghost predicate SelectsBest(documents: seq<Document>, locales: seq<string>, selected: map<string, Document>) {
    forall key :: match BestLocale(documents, key, locales)
                  case None => key !in selected
                  case Some(l) => key in selected && selected[key].locale == l
  }

  /** The same after the first `j` documents have been tried for one more locale. */
  ghost predicate SelectsNext(documents: seq<Document>, locale: string, j: int,
                              before: map<string, Document>, selected: map<string, Document>) {
    && 0 <= j <= |documents|
    && (forall key :: key in before ==> key in selected && selected[key] == before[key])
    && (forall key :: key in selected && key !in before ==>
        selected[key].locale == locale && HasKeyIn(documents, key, locale))
    && (forall k :: 0 <= k < j && documents[k].locale == locale ==> documents[k].key in selected)
  }

  lemma {:induction false} BestLocaleAppend(documents: seq<Document>, key: string, locales: seq<string>, more: string)
    ensures BestLocale(documents, key, locales + [more]) ==
            if BestLocale(documents, key, locales).Some? then BestLocale(documents, key, locales)
            else if HasKeyIn(documents, key, more) then Some(more) else None
  {
    if locales == [] {
      assert ([] + [more])[1..] == [];
    } else {
      assert (locales + [more])[1..] == locales[1..] + [more];
      BestLocaleAppend(documents, key, locales[1..], more);
    }
  }

  lemma {:induction false} SelectedLocale(documents: seq<Document>, locales: seq<string>, more: string,
                                          before: map<string, Document>, selected: map<string, Document>)
    requires SelectsBest(documents, locales, before) && SelectsNext(documents, more, |documents|, before, selected)
    ensures SelectsBest(documents, locales + [more], selected)
  {
    forall key
      ensures match BestLocale(documents, key, locales + [more])
              case None => key !in selected
              case Some(l) => key in selected && selected[key].locale == l
    {
      BestLocaleAppend(documents, key, locales, more);
    }
  }

  /** The best locale is one of the locales that has the key, and none before it has. */
  lemma {:induction false} BestLocaleIsFirst(documents: seq<Document>, key: string, locales: seq<string>)
    ensures match BestLocale(documents, key, locales)
            case None => forall i :: 0 <= i < |locales| ==> !HasKeyIn(documents, key, locales[i])
            case Some(l) => exists i :: 0 <= i < |locales| && locales[i] == l && HasKeyIn(documents, key, l)
                                        && forall j :: 0 <= j < i ==> !HasKeyIn(documents, key, locales[j])
  {
    if locales != [] {
      BestLocaleIsFirst(documents, key, locales[1..]);
      if !HasKeyIn(documents, key, locales[0]) {
        match BestLocale(documents, key, locales)
        case None =>
        case Some(l) =>
          var i :| 0 <= i < |locales[1..]| && locales[1..][i] == l && HasKeyIn(documents, key, l)
                   && forall j :: 0 <= j < i ==> !HasKeyIn(documents, key, locales[1..][j]);
          assert locales[i + 1] == l;
          assert forall j :: 1 <= j < i + 1 ==> locales[j] == locales[1..][j - 1];
      }
    }
  }

  /** The documents for a locale are registered ones at the best locale of their key, in registration order. */
  lemma {:induction false} BestDocumentsMembers(documents: seq<Document>, locales: seq<string>, n: nat, d: Document)
    requires n <= |documents|
    ensures d in BestDocuments(documents, locales, n) <==>
            d in documents[..n] && BestLocale(documents, d.key, locales) == Some(d.locale)
  {
    if n > 0 {
      BestDocumentsMembers(documents, locales, n - 1, d);
      assert documents[..n] == documents[..n - 1] + [documents[n - 1]];
    }
  }

  lemma {:induction false} BestDocumentIsLast(lib: Library, documents: seq<Document>, locales: seq<string>, n: nat,
                                              e: Document)
    requires DocumentsSound(lib, documents) && 0 < n <= |documents|
    requires e in BestDocuments(documents, locales, n - 1) && e.key == documents[n - 1].key
    ensures BestLocale(documents, e.key, locales) != Some(documents[n - 1].locale)
  {
    hide BestLocale, BestDocuments, ValidDocument, DocumentApiKeys;
    BestDocumentsMembers(documents, locales, n - 1, e);
    var k :| 0 <= k < n - 1 && documents[..n - 1][k] == e;
    assert documents[k] == e;
  }

  /** They keep the order of registration: what is left of it is a subsequence. */
  lemma {:induction false} BestDocumentsInOrder(documents: seq<Document>, locales: seq<string>, n: nat)
    returns (at: seq<nat>)
    requires n <= |documents|
    ensures |at| == |BestDocuments(documents, locales, n)|
    ensures forall k :: 0 <= k < |at| ==> at[k] < n && documents[at[k]] == BestDocuments(documents, locales, n)[k]
    ensures forall j, k :: 0 <= j < k < |at| ==> at[j] < at[k]
  {
    hide BestLocale;
    at := [];
    if n > 0 {
      at := BestDocumentsInOrder(documents, locales, n - 1);
      if BestLocale(documents, documents[n - 1].key, locales) == Some(documents[n - 1].locale) {
        at := at + [n - 1];
      }
    }
  }

  /** No key appears twice. */
  lemma {:induction false} BestDocumentsDistinct(lib: Library, documents: seq<Document>, locales: seq<string>, n: nat)
    requires DocumentsSound(lib, documents) && n <= |documents|
    ensures forall i, j :: 0 <= i < j < |BestDocuments(documents, locales, n)| ==>
              BestDocuments(documents, locales, n)[i].key != BestDocuments(documents, locales, n)[j].key
  {
    hide BestLocale, DocumentsSound;
    if n > 0 {
      BestDocumentsDistinct(lib, documents, locales, n - 1);
      var before, d := BestDocuments(documents, locales, n - 1), documents[n - 1];
      forall i | 0 <= i < |before| && before[i].key == d.key
        ensures BestLocale(documents, d.key, locales) != Some(d.locale)
      {
        BestDocumentIsLast(lib, documents, locales, n, before[i]);
      }
    }
  }

  /** Exactly the keys that some locale has are represented, each by one document. */
  lemma {:induction false} EachKeyOnce(lib: Library, documents: seq<Document>, locales: seq<string>, key: string)
    requires DocumentsSound(lib, documents)
    ensures var best := BestDocuments(documents, locales, |documents|);
      (exists i :: 0 <= i < |locales| && HasKeyIn(documents, key, locales[i]))
      <==> exists k :: 0 <= k < |best| && best[k].key == key && forall j :: 0 <= j < |best| && best[j].key == key ==>
          j == k
  {
    var best := BestDocuments(documents, locales, |documents|);
    assert documents[..|documents|] == documents;
    BestLocaleIsFirst(documents, key, locales);
    BestDocumentsDistinct(lib, documents, locales, |documents|);
    if BestLocale(documents, key, locales).Some? {
      var l := BestLocale(documents, key, locales).value;
      var m :| 0 <= m < |documents| && documents[m].key == key && documents[m].locale == l;
      BestDocumentsMembers(documents, locales, |documents|, documents[m]);
      assert documents[m] in best;
    }
    forall k | 0 <= k < |best| && best[k].key == key
      ensures BestLocale(documents, key, locales).Some?
    {
      BestDocumentsMembers(documents, locales, |documents|, best[k]);
      assert best[k] in best;
    }
  }

  /** There are documents for a locale exactly if some document is in one of its locales. */
  lemma {:induction false} SomeBestDocument(documents: seq<Document>, locales: seq<string>)
    ensures BestDocuments(documents, locales, |documents|) != []
            <==> exists k :: 0 <= k < |documents| && documents[k].locale in locales
  {
    var best := BestDocuments(documents, locales, |documents|);
    assert documents[..|documents|] == documents;
    if best != [] {
      BestDocumentsMembers(documents, locales, |documents|, best[0]);
      BestLocaleIsFirst(documents, best[0].key, locales);
      assert best[0] in best;
    }
    if k :| 0 <= k < |documents| && documents[k].locale in locales {
      var key := documents[k].key;
      BestLocaleIsFirst(documents, key, locales);
      var i :| 0 <= i < |locales| && locales[i] == documents[k].locale;
      assert HasKeyIn(documents, key, locales[i]);
      var l := BestLocale(documents, key, locales).value;
      var m :| 0 <= m < |documents| && documents[m].key == key && documents[m].locale == l;
      BestDocumentsMembers(documents, locales, |documents|, documents[m]);
    }
  }
}

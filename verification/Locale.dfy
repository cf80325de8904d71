/** Language candidates of an Accept-Language value (resource/locale/locale.go): the preferences by
    descending quality (section 12.5.4 of RFC 9110), each followed by its truncations at the last
    hyphen (section 3.4 of RFC 4647, without its rule for single-character subtags), without repeats. */
module Locale {
  import opened Common

  /** Normalising a language tag, recognising the parameter name q, and reading a decimal number;
      None is a text that is no finite number. */
  datatype Library = Library(normalize: string -> string, isQ: string -> bool, parseFloat: string -> Option<real>)

  datatype Preference = Preference(locale: string, quality: real, order: nat)

  // ----- text -----

  function Split(s: string, separator: char): (r: seq<string>)
    ensures r != []
  {
    if s == [] then [""]
    else
      var rest := Split(s[1..], separator);
      if s[0] == separator then [""] + rest else [[s[0]] + rest[0]] + rest[1..]
  }

  /** The position of the last occurrence, or -1. */
  function LastIndex(s: string, c: char): (r: int)
    ensures -1 <= r < |s|
    ensures r >= 0 ==> s[r] == c
    ensures forall k :: r < k < |s| ==> s[k] != c
  {
    if s == [] then -1 else if s[|s| - 1] == c then |s| - 1 else LastIndex(s[..|s| - 1], c)
  }

  /** The position of the first occurrence, or the length. */
  function FirstIndex(s: string, c: char): (r: nat)
    ensures r <= |s|
    ensures r < |s| ==> s[r] == c
    ensures forall k :: 0 <= k < r ==> s[k] != c
  {
    if s == [] || s[0] == c then 0 else 1 + FirstIndex(s[1..], c)
  }

  // ----- preferences -----

  /** What one parameter makes of the quality: nothing, or the end at 0, or a new value. */
  datatype Weight = Ignored | Invalid | Weighs(value: real)

  function WeightOf(lib: Library, parameter: string): Weight {
    var at := FirstIndex(parameter, '=');
    if at == |parameter| || !lib.isQ(parameter[..at]) then Ignored
    else
      match lib.parseFloat(parameter[at + 1..])
      case None => Invalid
      case Some(q) => if q < 0.0 || q > 1.0 then Invalid else Weighs(q)
  }

  /** The quality of a part: 0 from the first invalid weight on, else the last valid one, else 1. */
  function Quality(lib: Library, parameters: seq<string>): real {
    if exists k :: 0 <= k < |parameters| && WeightOf(lib, parameters[k]).Invalid? then 0.0
    else LastWeight(lib, parameters)
  }

  function LastWeight(lib: Library, parameters: seq<string>): real {
    if parameters == [] then 1.0
    else
      match WeightOf(lib, parameters[|parameters| - 1])
      case Weighs(q) => q
      case _ => LastWeight(lib, parameters[..|parameters| - 1])
  }

  function PreferenceOf(lib: Library, part: string, order: nat): Preference {
    var parameters := Split(part, ';');
    Preference(lib.normalize(parameters[0]), Quality(lib, parameters[1..]), order)
  }

  predicate Acceptable(p: Preference) { p.locale != "" && p.locale != "*" && p.quality != 0.0 }

  /** The acceptable preferences among the first `n` parts, in the order of the parts. */
  function Accepted(lib: Library, parts: seq<string>, n: nat): seq<Preference>
    requires n <= |parts|
  {
    if n == 0 then []
    else
      var p := PreferenceOf(lib, parts[n - 1], n - 1);
      Accepted(lib, parts, n - 1) + (if Acceptable(p) then [p] else [])
  }

  predicate Before(p: Preference, q: Preference) {
    p.quality > q.quality || (p.quality == q.quality && p.order < q.order)
  }

  predicate Ranked(ps: seq<Preference>) { forall i, j :: 0 <= i < j < |ps| ==> Before(ps[i], ps[j]) }

  function Insert(p: Preference, ps: seq<Preference>): seq<Preference> {
    if ps != [] && Before(p, ps[|ps| - 1]) then Insert(p, ps[..|ps| - 1]) + [ps[|ps| - 1]] else ps + [p]
  }

  function Sort(ps: seq<Preference>): seq<Preference> {
    if ps == [] then [] else Insert(ps[|ps| - 1], Sort(ps[..|ps| - 1]))
  }

  /** The preferences of an Accept-Language value, best first. */
  function Preferences(lib: Library, value: string): seq<Preference> {
    var parts := Split(value, ',');
    Sort(Accepted(lib, parts, |parts|))
  }

  // ----- candidates -----

  /** The truncations of a tag at the last hyphen, one after the other. */
  function Truncations(tag: string): seq<string>
    decreases |tag|
  {
    var at := LastIndex(tag, '-');
    if at < 0 then [] else [tag[..at]] + Truncations(tag[..at])
  }

  function Chain(tag: string): seq<string> { [tag] + Truncations(tag) }

  function Chains(ps: seq<Preference>): seq<string> {
    if ps == [] then [] else Chains(ps[..|ps| - 1]) + Chain(ps[|ps| - 1].locale)
  }

  /** The non-empty elements, each at its first occurrence. */
  function FirstOccurrences(all: seq<string>): seq<string> {
    if all == [] then []
    else
      var init, x := all[..|all| - 1], all[|all| - 1];
      FirstOccurrences(init) + (if x == "" || x in init then [] else [x])
  }

  function NonEmpty(all: seq<string>): set<string> { set x | x in all && x != "" }

  lemma {:induction false} FirstOccurrencesGrow(all: seq<string>, x: string)
    ensures FirstOccurrences(all + [x]) ==
            FirstOccurrences(all) + (if x == "" || x in NonEmpty(all) then [] else [x])
    ensures NonEmpty(all + [x]) == if x == "" then NonEmpty(all) else NonEmpty(all) + {x}
  {
    assert (all + [x])[..|all|] == all;
  }

  lemma {:induction false} NothingWalked()
    ensures FirstOccurrences([]) == [] && NonEmpty([]) == {}
  {
  }

  // ----- the program -----

  method AppendCandidate(result: seq<string>, seen: set<string>, value: string)
    returns (result': seq<string>, seen': set<string>)
    ensures result' == result + (if value == "" || value in seen then [] else [value])
    ensures seen' == if value == "" then seen else seen + {value}
  {
    if value == "" || value in seen {
      return result, seen;
    }
    return result + [value], seen + {value};
  }

  method ParseQuality(lib: Library, parameters: seq<string>) returns (quality: real)
    ensures quality == Quality(lib, parameters)
  {
    quality := 1.0;
    for i := 0 to |parameters|
      invariant quality == LastWeight(lib, parameters[..i])
      invariant forall k :: 0 <= k < i ==> !WeightOf(lib, parameters[k]).Invalid?
    {
      assert parameters[..i + 1][..i] == parameters[..i];
      var at := FirstIndex(parameters[i], '=');
      if at == |parameters[i]| || !lib.isQ(parameters[i][..at]) {
        continue;
      }
      var parsed := lib.parseFloat(parameters[i][at + 1..]);
      if parsed.None? || parsed.value < 0.0 || parsed.value > 1.0 {
        quality := 0.0;
        return;
      }
      quality := parsed.value;
    }
    assert parameters[..|parameters|] == parameters;
  }

  method ParsePreferences(lib: Library, value: string) returns (preferences: seq<Preference>)
    ensures preferences == Preferences(lib, value)
  {
    var parts := Split(value, ',');
    preferences := [];
    for order := 0 to |parts|
      invariant preferences == Accepted(lib, parts, order)
    {
      var parameters := Split(parts[order], ';');
      var locale := lib.normalize(parameters[0]);
      if locale == "" || locale == "*" {
        continue;
      }
      var quality := ParseQuality(lib, parameters[1..]);
      if quality == 0.0 {
        continue;
      }
      preferences := preferences + [Preference(locale, quality, order)];
    }
    preferences := Sort(preferences);
  }

  method Candidates(lib: Library, value: string) returns (result: seq<string>)
    ensures result == FirstOccurrences(Chains(Preferences(lib, value)))
  {
    hide Preferences, FirstOccurrences, NonEmpty;
    var preferences := ParsePreferences(lib, value);
    result := [];
    NothingWalked();
    var seen: set<string> := {};
    ghost var walked: seq<string> := [];
    for i := 0 to |preferences|
      invariant walked == Chains(preferences[..i])
      invariant result == FirstOccurrences(walked) && seen == NonEmpty(walked)
    {
      assert preferences[..i + 1][..i] == preferences[..i];
      var currentLocale := preferences[i].locale;
      FirstOccurrencesGrow(walked, currentLocale);
      result, seen := AppendCandidate(result, seen, currentLocale);
      walked := walked + [currentLocale];
      while true
        invariant result == FirstOccurrences(walked) && seen == NonEmpty(walked)
        invariant Chains(preferences[..i + 1]) == walked + Truncations(currentLocale)
        decreases |currentLocale|
      {
        var at := LastIndex(currentLocale, '-');
        if at < 0 {
          break;
        }
        currentLocale := currentLocale[..at];
        FirstOccurrencesGrow(walked, currentLocale);
        result, seen := AppendCandidate(result, seen, currentLocale);
        walked := walked + [currentLocale];
      }
    }
    assert preferences[..|preferences|] == preferences;
  }

  // ----- the order of the preferences -----

  /** The positions in `ps` are distinct and below `n`. */
  predicate DistinctOrders(ps: seq<Preference>, n: nat) {
    && (forall i :: 0 <= i < |ps| ==> ps[i].order < n)
    && (forall i, j :: 0 <= i < j < |ps| ==> ps[i].order != ps[j].order)
  }

  lemma {:induction false} BeforeOrders(p: Preference, q: Preference, r: Preference)
    ensures p.order != q.order ==> Before(p, q) || Before(q, p)
    ensures Before(p, q) && Before(q, r) ==> Before(p, r)
  {
  }

  lemma {:induction false} InsertPermutes(p: Preference, ps: seq<Preference>)
    ensures multiset(Insert(p, ps)) == multiset(ps) + multiset{p}
  {
    hide Before;
    if ps != [] && Before(p, ps[|ps| - 1]) {
      InsertPermutes(p, ps[..|ps| - 1]);
      assert ps == ps[..|ps| - 1] + [ps[|ps| - 1]];
    }
  }

  lemma {:induction false} InsertRanks(p: Preference, ps: seq<Preference>)
    requires Ranked(ps) && forall i :: 0 <= i < |ps| ==> ps[i].order != p.order
    ensures Ranked(Insert(p, ps)) && multiset(Insert(p, ps)) == multiset(ps) + multiset{p}
  {
    hide Before;
    InsertPermutes(p, ps);
    if ps != [] {
      var init, last := ps[..|ps| - 1], ps[|ps| - 1];
      BeforeOrders(p, last, last);
      if Before(p, last) {
        InsertRanks(p, init);
        forall i | 0 <= i < |Insert(p, init)| ensures Before(Insert(p, init)[i], last) {
          assert Insert(p, init)[i] in multiset(Insert(p, init));
        }
      } else {
        forall i | 0 <= i < |init| ensures Before(init[i], p) {
          BeforeOrders(init[i], last, p);
        }
      }
    }
  }

  lemma {:induction false} SortRanks(ps: seq<Preference>, n: nat)
    requires DistinctOrders(ps, n)
    ensures Ranked(Sort(ps)) && multiset(Sort(ps)) == multiset(ps)
  {
    hide Insert;
    if ps != [] {
      var init, last := ps[..|ps| - 1], ps[|ps| - 1];
      SortRanks(init, n);
      assert ps == init + [last];
      forall i | 0 <= i < |Sort(init)|
        ensures Sort(init)[i].order != last.order
      {
        assert Sort(init)[i] in multiset(Sort(init));
        assert Sort(init)[i] in init;
      }
      InsertRanks(last, Sort(init));
    }
  }

  lemma {:induction false} AcceptedDistinct(lib: Library, parts: seq<string>, n: nat)
    requires n <= |parts|
    ensures DistinctOrders(Accepted(lib, parts, n), n)
  {
    hide Acceptable, PreferenceOf;
    if n > 0 {
      AcceptedDistinct(lib, parts, n - 1);
      assert PreferenceOf(lib, parts[n - 1], n - 1).order == n - 1 by {
        OrderOf(lib, parts[n - 1], n - 1);
      }
    }
  }

  lemma {:induction false} OrderOf(lib: Library, part: string, order: nat)
    ensures PreferenceOf(lib, part, order).order == order
  {
  }

  lemma {:induction false} AcceptedAre(lib: Library, parts: seq<string>, n: nat, p: Preference)
    requires n <= |parts|
    ensures p in Accepted(lib, parts, n) <==>
              p.order < n && p == PreferenceOf(lib, parts[p.order], p.order) && Acceptable(p)
  {
    hide Acceptable, PreferenceOf;
    if n > 0 {
      AcceptedAre(lib, parts, n - 1, p);
      OrderOf(lib, parts[n - 1], n - 1);
    }
  }

  // ----- the text of a part -----

  /** The parts joined by the separator again. */
  function Joined(parts: seq<string>, separator: char): string {
    if parts == [] then ""
    else if |parts| == 1 then parts[0]
    else parts[0] + [separator] + Joined(parts[1..], separator)
  }

  /** Splitting loses nothing and leaves no separator in a part. */
  lemma {:induction false} SplitIs(s: string, separator: char)
    ensures Joined(Split(s, separator), separator) == s
    ensures forall k :: 0 <= k < |Split(s, separator)| ==> separator !in Split(s, separator)[k]
  {
    if s != [] {
      var rest := Split(s[1..], separator);
      SplitIs(s[1..], separator);
      assert s == [s[0]] + s[1..];
      if s[0] != separator {
        var all := Split(s, separator);
        assert all[0] == [s[0]] + rest[0] && all[1..] == rest[1..];
        assert Joined(all, separator) == [s[0]] + Joined(rest, separator);
      } else {
        assert ([""] + rest)[1..] == rest;
      }
    }
  }

  lemma {:induction false} FirstIndexIs(name: string, c: char, text: string)
    requires c !in name
    ensures FirstIndex(name, c) == |name| && FirstIndex(name + [c] + text, c) == |name|
    ensures (name + [c] + text)[..|name|] == name && (name + [c] + text)[|name| + 1..] == text
  {
    var s := name + [c] + text;
    assert s[|name|] == c;
    assert forall k :: 0 <= k < |name| ==> s[k] == name[k] != c;
  }

  /** A parameter of the form name, equals sign, text weighs if its name is q and its text a number from 0 to 1; with
      another text it is invalid; with another name, or without an equals sign, it is ignored. */
  lemma {:induction false} WeightIs(lib: Library, name: string, text: string)
    requires '=' !in name
    ensures WeightOf(lib, name).Ignored?
    ensures var w := WeightOf(lib, name + ['='] + text);
      && (w.Ignored? <==> !lib.isQ(name))
      && forall q :: w == Weighs(q) <==> lib.isQ(name) && lib.parseFloat(text) == Some(q) && 0.0 <= q <= 1.0
  {
    FirstIndexIs(name, '=', text);
  }

  /** The quality of a part is 0 if some weight is invalid, else its last weight, and 1 if it has none. */
  lemma {:induction false} QualityIs(lib: Library, parameters: seq<string>, q: real)
    ensures Quality(lib, parameters) == q <==>
            if exists k :: 0 <= k < |parameters| && WeightOf(lib, parameters[k]).Invalid? then q == 0.0
            else if forall k :: 0 <= k < |parameters| ==> WeightOf(lib, parameters[k]).Ignored? then q == 1.0
            else exists k :: 0 <= k < |parameters| && WeightOf(lib, parameters[k]) == Weighs(q)
                             && forall j :: k < j < |parameters| ==> WeightOf(lib, parameters[j]).Ignored?
  {
    if forall k :: 0 <= k < |parameters| ==> !WeightOf(lib, parameters[k]).Invalid? {
      LastWeightIs(lib, parameters, q);
    }
  }

  lemma {:induction false} LastWeightIs(lib: Library, parameters: seq<string>, q: real)
    requires forall k :: 0 <= k < |parameters| ==> !WeightOf(lib, parameters[k]).Invalid?
    ensures LastWeight(lib, parameters) == q <==>
            if forall k :: 0 <= k < |parameters| ==> WeightOf(lib, parameters[k]).Ignored? then q == 1.0
            else exists k :: 0 <= k < |parameters| && WeightOf(lib, parameters[k]) == Weighs(q)
                             && forall j :: k < j < |parameters| ==> WeightOf(lib, parameters[j]).Ignored?
  {
    hide WeightOf;
    if parameters != [] {
      var front, last := parameters[..|parameters| - 1], parameters[|parameters| - 1];
      if WeightOf(lib, last).Ignored? {
        LastWeightIs(lib, front, q);
        assert forall k :: 0 <= k < |front| ==> front[k] == parameters[k];
      } else {
        assert parameters[|parameters| - 1] == last;
      }
    }
  }

  lemma {:induction false} RankedAre(lib: Library, value: string)
    ensures Ranked(Preferences(lib, value))
    ensures var parts := Split(value, ',');
      forall p :: p in Preferences(lib, value) <==>
        p.order < |parts| && p == PreferenceOf(lib, parts[p.order], p.order) && Acceptable(p)
  {
    var parts := Split(value, ',');
    var accepted := Accepted(lib, parts, |parts|);
    AcceptedDistinct(lib, parts, |parts|);
    SortRanks(accepted, |parts|);
    forall p
      ensures p in accepted <==> p.order < |parts| && p == PreferenceOf(lib, parts[p.order], p.order) && Acceptable(p)
    {
      AcceptedAre(lib, parts, |parts|, p);
    }
    assert forall p :: p in Sort(accepted) <==> p in multiset(Sort(accepted));
    assert forall p :: p in accepted <==> p in multiset(accepted);
  }

  /** Preferences go by descending quality, then by position, and are those of the acceptable parts: a part before its
      first semicolon is the language, which is neither empty nor a star, what follows are parameters that give a
      quality other than 0. */
  lemma {:induction false} PreferencesRanked(lib: Library, value: string)
    ensures var ps := Preferences(lib, value);
      forall i, j :: 0 <= i < j < |ps| ==>
        ps[i].quality > ps[j].quality || (ps[i].quality == ps[j].quality && ps[i].order < ps[j].order)
    ensures var parts := Split(value, ',');
      forall p :: p in Preferences(lib, value) <==>
        && p.order < |parts|
        && p.locale == lib.normalize(Split(parts[p.order], ';')[0]) && p.locale != "" && p.locale != "*"
        && p.quality == Quality(lib, Split(parts[p.order], ';')[1..]) && p.quality != 0.0
  {
    var parts := Split(value, ',');
    RankedAre(lib, value);
    hide Split, Preferences, Quality;
    assert forall i, j :: 0 <= i < j < |Preferences(lib, value)| ==>
        Before(Preferences(lib, value)[i], Preferences(lib, value)[j]);
    forall p: Preference | p.order < |parts|
      ensures p == PreferenceOf(lib, parts[p.order], p.order) && Acceptable(p) <==>
              && p.locale == lib.normalize(Split(parts[p.order], ';')[0]) && p.locale != "" && p.locale != "*"
              && p.quality == Quality(lib, Split(parts[p.order], ';')[1..]) && p.quality != 0.0
    {
    }
  }

  lemma {:induction false} RankedHead(ps: seq<Preference>, x: Preference)
    requires Ranked(ps) && x in multiset(ps)
    ensures x == ps[0] || Before(ps[0], x)
  {
    var i :| 0 <= i < |ps| && ps[i] == x;
  }

  lemma {:induction false} RankedTail(ps: seq<Preference>)
    requires Ranked(ps) && ps != []
    ensures Ranked(ps[1..]) && multiset(ps[1..]) == multiset(ps) - multiset{ps[0]}
  {
    assert ps == [ps[0]] + ps[1..];
  }

  /** There is only one way to rank them, so any sort, stable or not, gives these preferences. */
  lemma {:induction false} RankingIsUnique(ps: seq<Preference>, qs: seq<Preference>)
    requires Ranked(ps) && Ranked(qs) && multiset(ps) == multiset(qs)
    ensures ps == qs
  {
    hide Ranked;
    assert |multiset(qs)| == |multiset(ps)|;
    if ps != [] {
      assert ps[0] in multiset(qs) && qs[0] in multiset(ps);
      RankedHead(ps, qs[0]);
      RankedHead(qs, ps[0]);
      RankedTail(ps);
      RankedTail(qs);
      RankingIsUnique(ps[1..], qs[1..]);
      assert ps == [ps[0]] + ps[1..] && qs == [qs[0]] + qs[1..];
    }
  }

  // ----- the candidates -----

  /** The element's first occurrence. */
  function FirstAt(all: seq<string>, x: string): (r: nat)
    requires x in all
    ensures r < |all| && all[r] == x && forall k :: 0 <= k < r ==> all[k] != x
  {
    if all[0] == x then 0 else 1 + FirstAt(all[1..], x)
  }

  /** Exactly the non-empty elements, none twice, in the order of their first occurrences. */
  lemma {:induction false} FirstOccurrencesAre(all: seq<string>)
    ensures forall x :: x in FirstOccurrences(all) <==> x in all && x != ""
    ensures forall i, j :: 0 <= i < j < |FirstOccurrences(all)| ==>
              FirstOccurrences(all)[i] != FirstOccurrences(all)[j]
    ensures forall i, j :: 0 <= i < j < |FirstOccurrences(all)| ==>
              FirstOccurrences(all)[i] in all && FirstOccurrences(all)[j] in all &&
              FirstAt(all, FirstOccurrences(all)[i]) < FirstAt(all, FirstOccurrences(all)[j])
  {
    if all != [] {
      var init, last := all[..|all| - 1], all[|all| - 1];
      FirstOccurrencesAre(init);
      assert all == init + [last];
      forall x | x in init
        ensures FirstAt(all, x) == FirstAt(init, x)
      {
      }
    }
  }

  /** What a truncation leaves, or nothing. */
  function Parent(tag: string): string {
    if LastIndex(tag, '-') < 0 then "" else tag[..LastIndex(tag, '-')]
  }

  lemma {:induction false} ChainHasParents(tag: string, x: string)
    requires x in Chain(tag)
    ensures Parent(x) == "" || Parent(x) in Chain(tag)
    decreases |tag|
  {
    if LastIndex(tag, '-') >= 0 {
      assert Chain(tag) == [tag] + Chain(Parent(tag));
      if x != tag {
        ChainHasParents(Parent(tag), x);
      } else {
        assert Chain(Parent(tag))[0] == Parent(tag);
      }
    }
  }

  lemma {:induction false} ChainsHaveParents(ps: seq<Preference>, x: string)
    requires x in Chains(ps)
    ensures Parent(x) == "" || Parent(x) in Chains(ps)
    ensures exists k :: 0 <= k < |ps| && x in Chain(ps[k].locale)
  {
    var init, last := ps[..|ps| - 1], ps[|ps| - 1];
    if x in Chain(last.locale) {
      ChainHasParents(last.locale, x);
    } else {
      ChainsHaveParents(init, x);
      var k :| 0 <= k < |init| && x in Chain(init[k].locale);
      assert x in Chain(ps[k].locale);
    }
  }

  /** A chain begins with its tag, each element is what a truncation leaves of the one before, and none is left of the
      last. */
  lemma {:induction false} ChainIs(tag: string)
    ensures Chain(tag) != [] && Chain(tag)[0] == tag
    ensures forall k :: 0 <= k < |Chain(tag)| - 1 ==>
              LastIndex(Chain(tag)[k], '-') >= 0 && Chain(tag)[k + 1] == Parent(Chain(tag)[k])
    ensures LastIndex(Chain(tag)[|Chain(tag)| - 1], '-') < 0
    decreases |tag|
  {
    if LastIndex(tag, '-') >= 0 {
      ChainIs(Parent(tag));
      assert Chain(tag) == [tag] + Chain(Parent(tag));
    }
  }

  lemma {:induction false} ChainShrinks(tag: string, i: nat, j: nat)
    requires i < j < |Chain(tag)|
    ensures |Chain(tag)[i]| > |Chain(tag)[j]|
  {
    ChainIs(tag);
    if i < j - 1 {
      ChainShrinks(tag, i, j - 1);
    }
  }

  /** The candidate comes from a preference before `i`, or from the one at `i` as a shorter truncation than `x`. */
  ghost predicate Later(ps: seq<Preference>, x: string, i: nat, y: string)
    requires i < |ps|
  {
    || (exists k :: 0 <= k < i && y in Chain(ps[k].locale))
    || (y in Chain(ps[i].locale) && |y| > |x|)
  }

  /** Where the first occurrence of `x` in the chains is: in the chain of the first preference that has it, and what
      stands before it comes from the preferences before that one or is longer. */
  lemma {:induction false} ChainsInOrder(ps: seq<Preference>, x: string, y: string) returns (i: nat)
    requires x in Chains(ps) && y in Chains(ps) && FirstAt(Chains(ps), y) < FirstAt(Chains(ps), x)
    ensures i < |ps| && x in Chain(ps[i].locale) && forall k :: 0 <= k < i ==> x !in Chain(ps[k].locale)
    ensures Later(ps, x, i, y)
  {
    var n := |ps| - 1;
    var front, chain := ps[..n], Chain(ps[n].locale);
    var all := Chains(front);
    assert Chains(ps) == all + chain;
    if x in all {
      FirstInFront(all, chain, x);
      FirstInFront(all, chain, y);
      i := ChainsInOrder(front, x, y);
      assert forall k :: 0 <= k <= i ==> front[k] == ps[k];
    } else {
      i := n;
      forall k | 0 <= k < i ensures x !in Chain(ps[k].locale) {
        ChainsHave(front, k, x);
      }
      if y in all {
        ChainsHaveParents(front, y);
        var k :| 0 <= k < |front| && y in Chain(front[k].locale);
        assert y in Chain(ps[k].locale);
      } else {
        FirstInBack(all, chain, x);
        FirstInBack(all, chain, y);
        ChainShrinks(ps[n].locale, FirstAt(chain, y), FirstAt(chain, x));
      }
    }
  }

  lemma {:induction false} ChainsHave(ps: seq<Preference>, k: nat, x: string)
    requires k < |ps|
    ensures x in Chain(ps[k].locale) ==> x in Chains(ps)
  {
    if k < |ps| - 1 {
      ChainsHave(ps[..|ps| - 1], k, x);
    }
  }

  lemma {:induction false} FirstInFront(a: seq<string>, b: seq<string>, x: string)
    requires x in a + b
    ensures x in a ==> FirstAt(a + b, x) == FirstAt(a, x)
    ensures x !in a ==> FirstAt(a + b, x) >= |a|
  {
    assert forall k :: 0 <= k < |a| ==> (a + b)[k] == a[k];
  }

  lemma {:induction false} FirstInBack(a: seq<string>, b: seq<string>, x: string)
    requires x in b && x !in a
    ensures x in a + b && FirstAt(a + b, x) == |a| + FirstAt(b, x)
  {
    var at := |a| + FirstAt(b, x);
    assert (a + b)[at] == x;
    assert forall k :: 0 <= k < at ==> (a + b)[k] == if k < |a| then a[k] else b[k - |a|];
  }

  /** The candidates keep the order of the preferences: before a candidate come only candidates of better preferences
      than the first that has it, and less truncated ones of the same. */
  lemma {:induction false} CandidatesInOrder(lib: Library, value: string, a: nat, b: nat) returns (i: nat)
    requires a < b < |FirstOccurrences(Chains(Preferences(lib, value)))|
    ensures var ps, result := Preferences(lib, value), FirstOccurrences(Chains(Preferences(lib, value)));
      && i < |ps| && result[b] in Chain(ps[i].locale)
      && (forall k :: 0 <= k < i ==> result[b] !in Chain(ps[k].locale))
      && Later(ps, result[b], i, result[a])
  {
    var ps := Preferences(lib, value);
    FirstOccurrencesAre(Chains(ps));
    var result := FirstOccurrences(Chains(ps));
    i := ChainsInOrder(ps, result[b], result[a]);
  }

  /** No candidate is empty or repeated, and with a candidate comes every non-empty truncation of it. */
  lemma {:induction false} CandidatesClosed(lib: Library, value: string, i: nat)
    requires i < |FirstOccurrences(Chains(Preferences(lib, value)))|
    ensures var result := FirstOccurrences(Chains(Preferences(lib, value)));
      && result[i] != ""
      && (forall j :: 0 <= j < |result| && j != i ==> result[j] != result[i])
      && (Parent(result[i]) != "" ==> Parent(result[i]) in result)
  {
    var all := Chains(Preferences(lib, value));
    FirstOccurrencesAre(all);
    var x := FirstOccurrences(all)[i];
    assert x in FirstOccurrences(all);
    ChainsHaveParents(Preferences(lib, value), x);
  }
}

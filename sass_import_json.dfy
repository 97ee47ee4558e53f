/**
  The node-sass importer that turns a `.json` import into SASS variable declarations
  (config/sass-import-json.js): the recursive serialiser `parseValue` / `parseList` /
  `parseMap` / `transformJSONtoSass`, the `.json` suffix test, and the importer's
  resolution rule over an abstract host (file existence, path joining and `require`).
 */
module SassImportJson {
  import opened Wrappers
  import opened JsStrings

  /**
    A parsed JSON value. Numbers are kept as the text JavaScript would print for them;
    an object is its entries in enumeration order.
   */
  datatype Json =
    | JNull
    | JBool(b: bool)
    | JNumber(text: string)
    | JString(s: string)
    | JArray(items: seq<Json>)
    | JObject(entries: seq<Member>)

  /** One key/value entry of a JSON object. */
  datatype Member = Member(key: string, value: Json)

  // ---------------------------------------------------------------------------
  // The serialiser
  // ---------------------------------------------------------------------------

  /**
    `parseValue`: arrays and plain objects become SASS list and map text; every other
    value is handed back as it is. The scalar is represented by the text JavaScript's
    string conversion gives it, and `null` by `None`, because the two callers convert
    `null` differently (see AsConcatenated and AsJoined).
   */
  function ParseValue(v: Json): (r: Option<string>)
    ensures r.None? <==> v.JNull?
    ensures v.JArray? || v.JObject? ==>
      |r.value| >= 2 && r.value[0] == '(' && r.value[|r.value| - 1] == ')'
    ensures v.JArray? ==> r == Some(ParseList(v.items))
    ensures v.JObject? ==> r == Some(ParseMap(v.entries))
    ensures v.JBool? ==> r == Some(if v.b then "true" else "false")
    ensures v.JNumber? ==> r == Some(v.text)
    ensures v.JString? ==> r == Some(v.s)
    decreases v, 2
  {
    match v
    case JArray(items) => Some(ParseList(items))
    case JObject(entries) => Some(ParseMap(entries))
    case JNull => None
    case JBool(b) => Some(if b then "true" else "false")
    case JNumber(text) => Some(text)
    case JString(s) => Some(s)
  }

  /** A `parseValue` result used as an operand of string `+`: `null` prints as "null". */
  function AsConcatenated(p: Option<string>): string
  {
    if p.None? then "null" else p.value
  }

  /** A `parseValue` result as an element of `Array.prototype.join`: `null` becomes "". */
  function AsJoined(p: Option<string>): string
  {
    if p.None? then "" else p.value
  }

  /** `list.map(parseValue)`, as the strings `join` makes of the elements. */
  function ListElements(list: seq<Json>): seq<string>
    decreases list, 0
  {
    seq(|list|, i requires 0 <= i < |list| => AsJoined(ParseValue(list[i])))
  }

  /** `parseList`: the elements, comma separated, in parentheses. */
  function ParseList(list: seq<Json>): (r: string)
    ensures |r| >= 2 && r[0] == '(' && r[|r| - 1] == ')'
    decreases list, 1
  {
    "(" + Join(ListElements(list), ",") + ")"
  }

  /** The `key + ': ' + parseValue(value)` text of each entry of a map. */
  function MapEntries(entries: seq<Member>): seq<string>
    decreases entries, 0
  {
    seq(|entries|, i requires 0 <= i < |entries| =>
      entries[i].key + ": " + AsConcatenated(ParseValue(entries[i].value)))
  }

  /** `parseMap`: the `key: value` entries, comma separated, in parentheses. */
  function ParseMap(entries: seq<Member>): (r: string)
    ensures |r| >= 2 && r[0] == '(' && r[|r| - 1] == ')'
    decreases entries, 1
  {
    "(" + Join(MapEntries(entries), ",") + ")"
  }

  /** The SASS variable declaration written for one top-level entry. */
  function Line(m: Member): string
  {
    "$" + m.key + ": " + AsConcatenated(ParseValue(m.value)) + ";"
  }

  /** One declaration per top-level entry, in order. */
  function Lines(json: seq<Member>): seq<string>
  {
    seq(|json|, i requires 0 <= i < |json| => Line(json[i]))
  }

  /**
    `transformJSONtoSass`: the declarations joined by newlines. The text is empty exactly
    for the empty object; otherwise it opens the first declaration with `$` and closes
    the last one with `;`.
   */
  function TransformJsonToSass(json: seq<Member>): (r: string)
    ensures r == "" <==> |json| == 0
    ensures |json| >= 1 ==> r[0] == '$' && r[|r| - 1] == ';'
  {
    var lines := Lines(json);
    if |json| == 0 then ""
    else
      JoinEnds(lines, "\n");
      assert lines[0][0] == '$' && lines[|json| - 1][|lines[|json| - 1]| - 1] == ';';
      Join(lines, "\n")
  }

  /** The empty object gives the empty text. */
  lemma TransformEmpty()
    ensures TransformJsonToSass([]) == ""
  {
  }

  /**
    As long as no declaration holds a newline of its own (no key or string value
    contains one), the text consists of exactly one line per top-level entry, in key
    order, each of the form `$key: value;`, with no trailing newline.
   */
  lemma TransformLines(json: seq<Member>)
    requires |json| >= 1
    requires forall i :: 0 <= i < |json| ==> '\n' !in Line(json[i])
    ensures var lines := Split(TransformJsonToSass(json), '\n');
      |lines| == |json| &&
      forall i :: 0 <= i < |json| ==>
        lines[i] == "$" + json[i].key + ": " + AsConcatenated(ParseValue(json[i].value)) + ";" &&
        lines[i][0] == '$' && lines[i][|lines[i]| - 1] == ';'
  {
    SplitJoin(Lines(json), '\n');
  }

  /** Top-level keys keep their enumeration order, not a sorted one. */
  lemma TransformKeepsKeyOrder()
    ensures TransformJsonToSass([Member("b", JNumber("1")), Member("a", JNumber("2"))])
      == "$b: 1;\n$a: 2;"
  {
  }

  /** A list of numbers, and the empty list. */
  lemma ListExamples()
    ensures ParseList([JNumber("1"), JNumber("2"), JNumber("3")]) == "(1,2,3)"
    ensures ParseList([]) == "()"
  {
    var items := [JNumber("1"), JNumber("2"), JNumber("3")];
    assert ListElements(items) == ["1", "2", "3"];
    assert Join(["1", "2", "3"], ",") == "1,2,3" by {
      assert Join(["3"], ",") == "3";
      assert ["1", "2", "3"][1..] == ["2", "3"];
      assert ["2", "3"][1..] == ["3"];
    }
    assert ListElements([]) == [];
  }

  lemma PairList()
    ensures ParseList([JNumber("2"), JNumber("3")]) == "(2,3)"
  {
    assert ListElements([JNumber("2"), JNumber("3")]) == ["2", "3"];
    assert Join(["2", "3"], ",") == "2,3" by {
      assert ["2", "3"][1..] == ["3"];
    }
  }

  /** The empty map renders as an empty pair of parentheses. */
  lemma EmptyMap()
    ensures ParseMap([]) == "()"
  {
    assert MapEntries([]) == [];
  }

  /** A map holding a number and a nested list. */
  lemma MapExample()
    ensures ParseMap([Member("x", JNumber("1")), Member("y", JArray([JNumber("2"), JNumber("3")]))])
      == "(x: 1,y: (2,3))"
  {
    var inner := [JNumber("2"), JNumber("3")];
    PairList();
    assert ParseValue(JArray(inner)) == Some("(2,3)");
    var entries := [Member("x", JNumber("1")), Member("y", JArray(inner))];
    var parts := MapEntries(entries);
    assert parts[0] == "x" + ": " + "1" == "x: 1";
    assert parts[1] == "y" + ": " + "(2,3)" == "y: (2,3)";
    assert parts == ["x: 1", "y: (2,3)"];
    assert Join(parts, ",") == "x: 1,y: (2,3)" by {
      assert parts[1..] == ["y: (2,3)"];
    }
  }

  /** Strings pass through unquoted and unescaped. */
  lemma StringPassesThrough()
    ensures TransformJsonToSass([Member("font", JString("Arial, sans-serif"))]) == "$font: Arial, sans-serif;"
  {
    var m := Member("font", JString("Arial, sans-serif"));
    assert AsConcatenated(ParseValue(m.value)) == "Arial, sans-serif";
    var line := "$" + "font" + ": " + "Arial, sans-serif" + ";";
    assert line == "$font: Arial, sans-serif;";
    assert Lines([m]) == [line];
    assert Join([line], "\n") == line;
  }

  /** `null` prints as "null" as a top-level value. */
  lemma NullAsTopLevelValue()
    ensures TransformJsonToSass([Member("on", JBool(true)), Member("off", JNull)]) == "$on: true;\n$off: null;"
  {
    var json := [Member("on", JBool(true)), Member("off", JNull)];
    var on := "$" + "on" + ": " + "true" + ";";
    var off := "$" + "off" + ": " + "null" + ";";
    assert AsConcatenated(ParseValue(JBool(true))) == "true";
    assert AsConcatenated(ParseValue(JNull)) == "null";
    assert Lines(json) == [on, off];
    assert Join([on, off], "\n") == on + "\n" + off by {
      assert [on, off][1..] == [off];
    }
    assert on + "\n" + off == "$on: true;\n$off: null;";
  }

  /** `null` prints as "null" as a map value. */
  lemma NullAsMapValue()
    ensures ParseMap([Member("k", JNull)]) == "(k: null)"
  {
    assert MapEntries([Member("k", JNull)])[0] == "k" + ": " + "null" == "k: null";
    assert MapEntries([Member("k", JNull)]) == ["k: null"];
  }

  /** `null` inside a list vanishes, so `[null]` renders like `[]`. */
  lemma NullInList()
    ensures ParseList([JNull]) == "()"
    ensures ParseList([JNumber("1"), JNull]) == "(1,)"
  {
    assert ListElements([JNull]) == [""];
    assert ListElements([JNumber("1"), JNull]) == ["1", ""];
    assert Join(["1", ""], ",") == "1," by {
      assert ["1", ""][1..] == [""];
    }
  }

  /**
    Inside the parentheses, the text of a non-empty list splits on `,` back into the
    texts of its elements, provided no element text holds a comma of its own.
   */
  lemma ListSplit(list: seq<Json>)
    requires |list| >= 1
    requires forall i :: 0 <= i < |list| ==> ',' !in ListElements(list)[i]
    ensures var r := ParseList(list);
      Split(r[1..|r| - 1], ',') == ListElements(list)
  {
    var r := ParseList(list);
    assert r[1..|r| - 1] == Join(ListElements(list), [',']);
    SplitJoin(ListElements(list), ',');
  }

  /**
    Inside the parentheses, the text of a non-empty map splits on `,` back into its
    `key: value` entries, provided no entry text holds a comma of its own.
   */
  lemma MapSplit(entries: seq<Member>)
    requires |entries| >= 1
    requires forall i :: 0 <= i < |entries| ==> ',' !in MapEntries(entries)[i]
    ensures var r := ParseMap(entries);
      Split(r[1..|r| - 1], ',') == MapEntries(entries)
  {
    var r := ParseMap(entries);
    assert r[1..|r| - 1] == Join(MapEntries(entries), [',']);
    SplitJoin(MapEntries(entries), ',');
  }

  // ---------------------------------------------------------------------------
  // Parentheses: each array and each object contributes exactly one pair
  // ---------------------------------------------------------------------------

  /** The number of arrays and objects in a value, itself included. */
  function Containers(v: Json): nat
    decreases v
  {
    match v
    case JArray(items) => 1 + ContainersOfList(items)
    case JObject(entries) => 1 + ContainersOfEntries(entries)
    case _ => 0
  }

  function ContainersOfList(list: seq<Json>): nat
    decreases list
  {
    if |list| == 0 then 0 else Containers(list[0]) + ContainersOfList(list[1..])
  }

  function ContainersOfEntries(entries: seq<Member>): nat
    decreases entries
  {
    if |entries| == 0 then 0
    else Containers(entries[0].value) + ContainersOfEntries(entries[1..])
  }

  predicate IsParen(c: char)
  {
    c == '(' || c == ')'
  }

  /** No key, string or number text in the value contains a parenthesis. */
  predicate ParenFree(v: Json)
    decreases v
  {
    match v
    case JArray(items) => forall i :: 0 <= i < |items| ==> ParenFree(items[i])
    case JObject(entries) =>
      forall i :: 0 <= i < |entries| ==>
        '(' !in entries[i].key && ')' !in entries[i].key && ParenFree(entries[i].value)
    case JNumber(text) => '(' !in text && ')' !in text
    case JString(s) => '(' !in s && ')' !in s
    case _ => true
  }

  /** The number of occurrences of `c` in `s`. */
  function Count(s: string, c: char): nat
  {
    if |s| == 0 then 0 else (if s[0] == c then 1 else 0) + Count(s[1..], c)
  }

  lemma {:induction false} CountConcat(a: string, b: string, c: char)
    ensures Count(a + b, c) == Count(a, c) + Count(b, c)
    decreases |a|
  {
    if |a| > 0 {
      assert (a + b)[1..] == a[1..] + b;
      CountConcat(a[1..], b, c);
    } else {
      assert a + b == b;
    }
  }

  lemma {:induction false} CountAbsent(s: string, c: char)
    requires c !in s
    ensures Count(s, c) == 0
    decreases |s|
  {
    if |s| > 0 {
      CountAbsent(s[1..], c);
    }
  }

  /** The number of occurrences of `c` across all the strings of `parts`. */
  function Occurrences(parts: seq<string>, c: char): nat
  {
    if |parts| == 0 then 0 else Count(parts[0], c) + Occurrences(parts[1..], c)
  }

  /** A separator without `c` adds no occurrence of `c` to a join. */
  lemma {:induction false} JoinOccurrences(parts: seq<string>, sep: string, c: char)
    requires c !in sep
    ensures Count(Join(parts, sep), c) == Occurrences(parts, c)
    decreases |parts|
  {
    if |parts| == 1 {
      assert Occurrences(parts[1..], c) == 0;
    } else if |parts| >= 2 {
      JoinOccurrences(parts[1..], sep, c);
      CountAbsent(sep, c);
      CountConcat(parts[0], sep, c);
      CountConcat(parts[0] + sep, Join(parts[1..], sep), c);
    }
  }

  /** Text in parentheses holds one more of each parenthesis than the text itself. */
  lemma Parenthesised(inner: string, c: char)
    requires IsParen(c)
    ensures Count("(" + inner + ")", c) == Count(inner, c) + 1
  {
    CountConcat("(", inner, c);
    CountConcat("(" + inner, ")", c);
    assert Count("(", c) + Count(")", c) == 1;
  }

  /**
    The rendered text of a value holds as many `(` as it holds `)`, one of each per
    array or object in it, whichever way `null` is converted.
   */
  lemma {:induction false} ValueParens(v: Json, c: char)
    requires IsParen(c) && ParenFree(v)
    ensures Count(AsConcatenated(ParseValue(v)), c) == Containers(v)
    ensures Count(AsJoined(ParseValue(v)), c) == Containers(v)
    decreases v, 2
  {
    match v
    case JArray(items) =>
      ListParens(items, c);
    case JObject(entries) =>
      MapParens(entries, c);
    case JNull =>
      CountAbsent("null", c);
      CountAbsent("", c);
    case JBool(b) =>
      CountAbsent("true", c);
      CountAbsent("false", c);
    case JNumber(text) =>
      CountAbsent(text, c);
    case JString(s) =>
      CountAbsent(s, c);
  }

  lemma {:induction false} ListParens(list: seq<Json>, c: char)
    requires IsParen(c)
    requires forall i :: 0 <= i < |list| ==> ParenFree(list[i])
    ensures Count(ParseList(list), c) == 1 + ContainersOfList(list)
    decreases list, 1
  {
    ElementsParens(list, c);
    JoinOccurrences(ListElements(list), ",", c);
    Parenthesised(Join(ListElements(list), ","), c);
  }

  lemma {:induction false} ElementsParens(list: seq<Json>, c: char)
    requires IsParen(c)
    requires forall i :: 0 <= i < |list| ==> ParenFree(list[i])
    ensures Occurrences(ListElements(list), c) == ContainersOfList(list)
    decreases list, 0
  {
    if |list| > 0 {
      var tail := list[1..];
      assert forall i :: 0 <= i < |tail| ==> tail[i] == list[i + 1];
      ValueParens(list[0], c);
      ElementsParens(tail, c);
      assert ListElements(list)[1..] == ListElements(tail);
    }
  }

  lemma {:induction false} MapParens(entries: seq<Member>, c: char)
    requires IsParen(c)
    requires forall i :: 0 <= i < |entries| ==>
      '(' !in entries[i].key && ')' !in entries[i].key && ParenFree(entries[i].value)
    ensures Count(ParseMap(entries), c) == 1 + ContainersOfEntries(entries)
    decreases entries, 1
  {
    EntriesParens(entries, c);
    JoinOccurrences(MapEntries(entries), ",", c);
    Parenthesised(Join(MapEntries(entries), ","), c);
  }

  lemma {:induction false} EntriesParens(entries: seq<Member>, c: char)
    requires IsParen(c)
    requires forall i :: 0 <= i < |entries| ==>
      '(' !in entries[i].key && ')' !in entries[i].key && ParenFree(entries[i].value)
    ensures Occurrences(MapEntries(entries), c) == ContainersOfEntries(entries)
    decreases entries, 0
  {
    if |entries| > 0 {
      var tail := entries[1..];
      assert forall i :: 0 <= i < |tail| ==> tail[i] == entries[i + 1];
      EntryParens(entries[0], c);
      EntriesParens(tail, c);
      assert MapEntries(entries)[1..] == MapEntries(tail);
    }
  }

  lemma {:induction false} EntryParens(e: Member, c: char)
    requires IsParen(c)
    requires '(' !in e.key && ')' !in e.key && ParenFree(e.value)
    ensures Count(e.key + ": " + AsConcatenated(ParseValue(e.value)), c) == Containers(e.value)
    decreases e
  {
    ValueParens(e.value, c);
    CountAbsent(e.key, c);
    CountAbsent(": ", c);
    CountConcat(e.key, ": ", c);
    CountConcat(e.key + ": ", AsConcatenated(ParseValue(e.value)), c);
  }

  // ---------------------------------------------------------------------------
  // The importer
  // ---------------------------------------------------------------------------

  /** The text every error returned by the importer starts with. */
  const ErrorPrefix: string :=
    "node-sass-json-importer: Error transforming JSON to SASS. Check if your JSON parses correctly. "

  /**
    What the importer needs from Node: `is-there` (does a file exist), `path.join`,
    `require.resolve` (does Node's module resolution find the file; a path that is not
    absolute and does not start with `./` or `../` is looked up as a package instead),
    `require` of a JSON file (the parsed top-level object, or the text of the error it
    throws), and `path.delimiter`, which separates the entries of `includePaths`.
   */
  datatype Host = Host(
    isThere: string -> bool,
    join: (string, string) -> string,
    resolves: string -> bool,
    require: string -> Result<seq<Member>, string>,
    delimiter: char)

  /**
    What a call of the importer comes to, apart from `null`: it returns `{contents}` or
    an `Error` object, or it throws, because `require.resolve(file)` runs before the
    `try` and throws for a file that module resolution cannot find.
   */
  datatype ImportResult =
    | Contents(contents: string)
    | ImportError(message: string)
    | Throws(file: string)

  /**
    `isJSONfile`: the case-sensitive suffix test `/\.json$/`, which holds exactly when
    the url is something followed by `.json`.
   */
  predicate IsJsonFile(url: string): (r: bool)
    ensures r <==> exists s: string :: url == s + ".json"
  {
    EndsWithIffConcat(url, ".json");
    EndsWith(url, ".json")
  }

  /**
    `prev.slice(0, prev.lastIndexOf('/'))`: the text before the last `/`; when there is
    no `/`, the index -1 makes `slice` drop the last character instead.
   */
  function PrevDirectory(prev: string): (r: string)
    ensures '/' in prev ==>
      |r| < |prev| && prev[..|r| + 1] == r + "/" && '/' !in prev[|r| + 1..]
    ensures '/' !in prev ==> r == prev[..if |prev| == 0 then 0 else |prev| - 1]
  {
    Slice(prev, 0, LastIndexOf(prev, '/'))
  }

  /**
    The `includePaths` option split on the delimiter: unset or empty gives no entries;
    otherwise the entries hold no delimiter and join back into the option string.
   */
  function IncludePathList(includePaths: string, delimiter: char): (r: seq<string>)
    ensures |r| == 0 <==> includePaths == ""
    ensures forall i :: 0 <= i < |r| ==> delimiter !in r[i]
    ensures |r| > 0 ==> Join(r, [delimiter]) == includePaths
  {
    if includePaths == "" then []
    else
      JoinSplit(includePaths, delimiter);
      Split(includePaths, delimiter)
  }

  /**
    The roots searched, in order: the importing file's directory first, then the
    include paths, which join back into the option string.
   */
  function SearchPath(prev: string, includePaths: string, delimiter: char): (r: seq<string>)
    ensures |r| >= 1 && r[0] == PrevDirectory(prev)
    ensures r[1..] == IncludePathList(includePaths, delimiter)
    ensures |r| == 1 <==> includePaths == ""
    ensures |r| > 1 ==> Join(r[1..], [delimiter]) == includePaths
  {
    var rest := IncludePathList(includePaths, delimiter);
    assert ([PrevDirectory(prev)] + rest)[1..] == rest;
    [PrevDirectory(prev)] + rest
  }

  /** `paths.map(path => join(path, url))`. */
  function Candidates(paths: seq<string>, url: string, join: (string, string) -> string): seq<string>
  {
    seq(|paths|, i requires 0 <= i < |paths| => join(paths[i], url))
  }

  /** `Array.prototype.filter`, keeping order. */
  function Filter(xs: seq<string>, p: string -> bool): (r: seq<string>)
    ensures |r| <= |xs|
  {
    if |xs| == 0 then []
    else Filter(xs[..|xs| - 1], p) + (if p(xs[|xs| - 1]) then [xs[|xs| - 1]] else [])
  }

  /** `Array.prototype.pop` used for its value: the last element, if any. */
  function Pop(xs: seq<string>): Option<string>
  {
    if |xs| == 0 then None else Some(xs[|xs| - 1])
  }

  /**
    Popping the filtered candidates yields nothing exactly when no candidate passes, and
    otherwise the LAST candidate that passes.
   */
  lemma {:induction false} PopFilterIsLast(xs: seq<string>, p: string -> bool)
    ensures Pop(Filter(xs, p)).None? <==> forall i :: 0 <= i < |xs| ==> !p(xs[i])
    ensures Pop(Filter(xs, p)).Some? ==>
      exists k :: 0 <= k < |xs| && Pop(Filter(xs, p)).value == xs[k] && p(xs[k]) &&
        forall j :: k < j < |xs| ==> !p(xs[j])
    decreases |xs|
  {
    if |xs| > 0 {
      var n := |xs| - 1;
      var init := xs[..n];
      PopFilterIsLast(init, p);
      if p(xs[n]) {
        assert Filter(xs, p) == Filter(init, p) + [xs[n]];
        assert Pop(Filter(xs, p)) == Some(xs[n]);
      } else {
        assert Filter(xs, p) == Filter(init, p);
        assert forall i :: 0 <= i < n ==> xs[i] == init[i];
        if Pop(Filter(init, p)).Some? {
          var k :| 0 <= k < n && Pop(Filter(init, p)).value == init[k] && p(init[k]) &&
            forall j :: k < j < n ==> !p(init[j]);
          assert xs[k] == init[k];
        }
      }
    }
  }

  /**
    The file the importer settles on: nothing when the url exists under none of the
    roots, otherwise the url joined to the LAST root under which it exists.
   */
  function ResolveFile(url: string, prev: string, includePaths: string, host: Host): (r: Option<string>)
    ensures var paths := SearchPath(prev, includePaths, host.delimiter);
      r.None? <==> forall i :: 0 <= i < |paths| ==> !host.isThere(host.join(paths[i], url))
    ensures var paths := SearchPath(prev, includePaths, host.delimiter);
      r.Some? ==>
        exists k :: 0 <= k < |paths| && r.value == host.join(paths[k], url) && host.isThere(r.value) &&
          forall j :: k < j < |paths| ==> !host.isThere(host.join(paths[j], url))
  {
    var paths := SearchPath(prev, includePaths, host.delimiter);
    var cands := Candidates(paths, url, host.join);
    PopFilterIsLast(cands, host.isThere);
    assert forall i :: 0 <= i < |paths| ==> cands[i] == host.join(paths[i], url);
    Pop(Filter(cands, host.isThere))
  }

  /**
    The `try { contents: transformJSONtoSass(require(file)) } catch` block: the contents
    exactly when `require` succeeds, otherwise an error whose message is the fixed prefix
    followed by the text of what `require` threw.
   */
  function Load(file: string, host: Host): (r: ImportResult)
    ensures !r.Throws?
    ensures r.Contents? <==> host.require(file).Success?
    ensures r.Contents? ==> r.contents == TransformJsonToSass(host.require(file).value)
    ensures r.ImportError? ==>
      |ErrorPrefix| <= |r.message| && r.message[..|ErrorPrefix|] == ErrorPrefix &&
      r.message[|ErrorPrefix|..] == host.require(file).error
  {
    match host.require(file)
    case Success(json) => Contents(TransformJsonToSass(json))
    case Failure(e) => ImportError(ErrorPrefix + e)
  }

  /**
    The importer: `None` (JavaScript `null`) exactly for a url that is not a `.json`
    file, so that other importers are tried; the empty transform when no candidate
    exists (its `try` cannot fail, as the empty object always serialises to "");
    otherwise a throw when module resolution cannot find the chosen file, else the
    transform of that file or an error value when reading it fails.
   */
  function Import(url: string, prev: string, includePaths: string, host: Host): (r: Option<ImportResult>)
    ensures r.None? <==> !IsJsonFile(url)
    ensures r.Some? && r.value.Throws? ==> host.isThere(r.value.file) && !host.resolves(r.value.file)
  {
    if !IsJsonFile(url) then None
    else
      var file := ResolveFile(url, prev, includePaths, host);
      if file.None? || file.value == "" then Some(Contents(TransformJsonToSass([])))
      else if !host.resolves(file.value) then Some(Throws(file.value))
      else Some(Load(file.value, host))
  }

  /** A `.json` import found under none of the roots yields no declarations, not an error. */
  lemma ImportMissingIsEmpty(url: string, prev: string, includePaths: string, host: Host)
    requires IsJsonFile(url)
    requires var paths := SearchPath(prev, includePaths, host.delimiter);
      forall i :: 0 <= i < |paths| ==> !host.isThere(host.join(paths[i], url))
    ensures Import(url, prev, includePaths, host) == Some(Contents(""))
  {
  }

  /**
    When candidates exist, the importer reads the one under the LAST root of the search
    path that has it (an include path wins over the importing file's directory), or
    throws if module resolution cannot find that file.
   */
  lemma ImportReadsLastExisting(url: string, prev: string, includePaths: string, host: Host, k: nat)
    requires IsJsonFile(url)
    requires var paths := SearchPath(prev, includePaths, host.delimiter);
      k < |paths| && host.isThere(host.join(paths[k], url)) &&
      forall j :: k < j < |paths| ==> !host.isThere(host.join(paths[j], url))
    requires host.join(SearchPath(prev, includePaths, host.delimiter)[k], url) != ""
    ensures var file := host.join(SearchPath(prev, includePaths, host.delimiter)[k], url);
      Import(url, prev, includePaths, host)
        == Some(if host.resolves(file) then Load(file, host) else Throws(file))
  {
    var paths := SearchPath(prev, includePaths, host.delimiter);
    var r := ResolveFile(url, prev, includePaths, host);
    var m :| 0 <= m < |paths| && r.value == host.join(paths[m], url) && host.isThere(r.value) &&
      forall j :: m < j < |paths| ==> !host.isThere(host.join(paths[j], url));
    assert m == k;
  }

  /**
    Every error the importer returns carries the fixed prefix followed by the text of a
    failure that `require` reported for an existing candidate that module resolution
    finds.
   */
  lemma ImportErrorIsRequireFailure(url: string, prev: string, includePaths: string, host: Host)
    requires Import(url, prev, includePaths, host).Some?
    requires Import(url, prev, includePaths, host).value.ImportError?
    ensures var msg := Import(url, prev, includePaths, host).value.message;
      |ErrorPrefix| <= |msg| && msg[..|ErrorPrefix|] == ErrorPrefix &&
      exists f :: host.isThere(f) && host.resolves(f) && host.require(f).Failure? &&
        msg == ErrorPrefix + host.require(f).error
  {
    var file := ResolveFile(url, prev, includePaths, host);
    assert host.isThere(file.value);
  }
}

/** `process_text` (app/postprocess.py): turn the language model's reply about
    an OCR'd chord sheet into a dict of sections, repair the chord blocks of
    each section, attach signed links for its scales, and answer with an error
    dict whenever any of this raises. */
module Postprocess {
  import opened Outcomes
  import opened PyText
  import opened JsonValue

  // ---------------------------------------------------------------------
  // Few-shot examples

  /** One few-shot example, as read from an example file. */
  datatype Example = Example(input: string, output: string)

  const Separator := "==="

  /** One example file: strip it, split it on `===`, strip the first two pieces.
      A file with a single piece raises `IndexError` at `content[1]`. */
  function ParseExample(content: string): (r: Outcome<Example>)
    ensures r.Raised? ==> r.message == ListIndexMessage
  {
    var parts := Split(Strip(content), Separator);
    if |parts| < 2 then Raised(ListIndexMessage)
    else Ok(Example(Strip(parts[0]), Strip(parts[1])))
  }

  /** A file raises exactly when its stripped text has no `===`. */
  lemma ParseExampleRaises(content: string)
    ensures ParseExample(content).Raised? <==> !Contains(Strip(content), Separator)
  {
    SplitSingleIff(Strip(content), Separator);
  }

  /** The input is the text before the first `===` and the output the text up
      to the next one, both stripped; whatever follows a second `===` is
      ignored. A part may hold `=` or `==`, just no `===` that starts in it. */
  lemma ExampleParts(content: string, a: string, b: string, rest: string)
    requires Strip(content) == a + Separator + b + rest
    requires !Contains(a + "==", Separator)
    requires (rest == [] && !Contains(b, Separator))
      || (StartsWith(rest, Separator) && !Contains(b + "==", Separator))
    ensures ParseExample(content) == Ok(Example(Strip(a), Strip(b)))
  {
    assert Separator[..|Separator| - 1] == "==";
    var tail := Split(b + rest, Separator);
    assert tail[0] == b by {
      if rest == [] {
        assert b + rest == b;
        SplitWhole(b, Separator);
      } else {
        var after := rest[|Separator|..];
        assert rest == Separator + after;
        assert b + rest == b + Separator + after;
        SplitAtFirst(b, Separator, after);
      }
    }
    assert Strip(content) == a + Separator + (b + rest);
    SplitAtFirst(a, Separator, b + rest);
    var parts := Split(Strip(content), Separator);
    assert parts == [a] + tail;
    assert |parts| >= 2 && parts[0] == a && parts[1] == b;
  }

  /** Lines 32-38: the loop over the example files, appending one example per file. */
  method LoadExamples(files: seq<string>) returns (r: Outcome<seq<Example>>)
    ensures r == MapAll(ParseExample, files)
  {
    var examples: seq<Example> := [];
    for i := 0 to |files|
      invariant MapAll(ParseExample, files[..i]) == Ok(examples)
    {
      assert files[..i + 1][..i] == files[..i];
      var example := ParseExample(files[i]);
      if example.Raised? {
        assert MapAll(ParseExample, files[..i + 1]) == Raised(example.message);
        MapAllPrefixRaised(ParseExample, files, i + 1);
        return Raised(example.message);
      }
      examples := examples + [example.value];
    }
    assert files[..|files|] == files;
    return Ok(examples);
  }

  /** A file without `===` anywhere makes loading the examples raise `IndexError`. */
  lemma MissingSeparatorRaises(files: seq<string>, i: nat)
    requires i < |files| && !Contains(files[i], Separator)
    ensures MapAll(ParseExample, files) == Raised(ListIndexMessage)
  {
    ContainsStrip(files[i], Separator);
    ParseExampleRaises(files[i]);
  }

  // ---------------------------------------------------------------------
  // Cleaning and parsing the reply

  const JsonFence := "```json"
  const Fence := "```"

  /** Lines 83-86: strip the reply and, when it opens with a ```json fence,
      delete every ```json, then every ```, and strip again. */
  function CleanResponse(raw: string): (cleaned: string)
    ensures IsStripped(cleaned)
    ensures !StartsWith(Strip(raw), JsonFence) ==> cleaned == Strip(raw)
    ensures StartsWith(Strip(raw), JsonFence) ==> !Contains(cleaned, Fence)
  {
    var result := Strip(raw);
    if StartsWith(result, JsonFence) then
      var unfenced := RemoveAll(RemoveAll(result, JsonFence), Fence);
      RemoveAllFenceGone(RemoveAll(result, JsonFence));
      ContainsStrip(unfenced, Fence);
      Strip(unfenced)
    else result
  }

  /** Deleting ```json and then ``` from a fenced body without backticks
      leaves the body. */
  lemma UnfenceBody(body: string)
    requires '`' !in body
    ensures RemoveAll(RemoveAll(JsonFence + body + Fence, JsonFence), Fence) == body
  {
    var s := JsonFence + body + Fence;
    assert s[..7] == JsonFence && s[7..] == body + Fence;
    assert RemoveAll(s, JsonFence) == RemoveAll(body + Fence, JsonFence);
    RemoveAllPrefixFree(body, Fence, JsonFence);
    assert RemoveAll(Fence, JsonFence) == Fence by {
      assert RemoveAll("`", JsonFence) == "`";
      assert RemoveAll("``", JsonFence) == "`" + RemoveAll("`", JsonFence);
      assert RemoveAll(Fence, JsonFence) == "`" + RemoveAll("``", JsonFence);
    }
    RemoveAllPrefixFree(body, Fence, Fence);
    assert RemoveAll(Fence, Fence) == [];
    assert body + [] == body;
  }

  /** A reply fenced as ```json ... ``` around a body without backticks comes
      out as the stripped body. */
  lemma FencedReply(body: string)
    requires '`' !in body
    ensures CleanResponse(JsonFence + body + Fence) == Strip(body)
  {
    var s := JsonFence + body + Fence;
    assert s[0] == '`' && s[|s| - 1] == '`';
    StripUnique([], s, []);
    assert [] + s + [] == s;
    assert s[..7] == JsonFence;
    UnfenceBody(body);
  }

  /** The JSON on a line of its own, as a fenced body: no backticks, and it
      strips to the JSON. */
  lemma LineBody(json: string)
    requires '`' !in json && IsStripped(json)
    ensures '`' !in "\n" + json + "\n"
    ensures Strip("\n" + json + "\n") == json
  {
    var body := "\n" + json + "\n";
    assert '`' !in body by {
      assert forall i :: 0 <= i < |body| ==> body[i] == '\n' || body[i] in json;
    }
    assert Strip(body) == json by {
      StripUnique("\n", json, "\n");
    }
  }

  /** A fenced text is the fence, the whole body between, and the fence.
      Stated over plain variables so that the solver regroups the
      concatenation once here rather than inside the larger proof. */
  lemma Regroup(open: string, a: string, b: string, c: string, close: string)
    ensures open + a + b + c + close == open + (a + b + c) + close
  {
  }

  /** A fenced reply with the JSON on its own line cleans to that line. */
  lemma FencedLine(reply: string, json: string)
    requires '`' !in json && IsStripped(json)
    requires reply == JsonFence + "\n" + json + "\n" + Fence
    ensures CleanResponse(reply) == json
  {
    var body := "\n" + json + "\n";
    Regroup(JsonFence, "\n", json, "\n", Fence);
    LineBody(json);
    FencedReply(body);
  }

  /** A reply with nothing to strip and no ```json fence is kept as it is. */
  lemma UnfencedKept(raw: string)
    requires IsStripped(raw) && !StartsWith(raw, JsonFence)
    ensures CleanResponse(raw) == raw
  {
    assert Strip(raw) == raw by {
      StripUnique([], raw, []);
      assert [] + raw + [] == raw;
    }
  }

  /** A reply fenced with a bare ``` is not a ```json fence, whatever its
      body, so it is left in place, fences and all. */
  lemma PlainFenceKept(body: string)
    requires !StartsWith(body, "json")
    ensures CleanResponse(Fence + body + Fence) == Fence + body + Fence
  {
    var reply := Fence + body + Fence;
    assert IsStripped(reply) by {
      assert reply[0] == '`' && reply[|reply| - 1] == '`';
    }
    assert !StartsWith(reply, JsonFence) by {
      if |body| < 4 {
        if |reply| >= 7 {
          assert reply[..7][3 + |body|] == '`';
        }
      } else {
        assert reply[3..7] == body[..4];
      }
    }
    UnfencedKept(reply);
  }

  /** Line 92: the dict that replaces a reply `json.loads` rejects. */
  function Degraded(cleaned: string): Json {
    Dict([("error", Str("Failed to parse response")), ("raw_response", Str(cleaned))])
  }

  /** Lines 88-92: `json.loads(cleaned)`, or the degraded dict when it raises. */
  function ParseOrDegrade(cleaned: string, loads: string -> Outcome<Json>): Json {
    match loads(cleaned)
    case Ok(v) => v
    case Raised(_) => Degraded(cleaned)
  }

  // ---------------------------------------------------------------------
  // Chord repair (lines 100-110)

  /** Lines 104-108 for one chord block: a block of three chords gets its third
      chord appended, a block of seven its seventh. The block is measured again
      before the second test, so a block is never extended twice. Appending to
      anything but a list raises. */
  function RepairBlock(block: Json): (r: Outcome<Json>)
    ensures block.List? && |block.items| == 3 ==> r == Ok(List(block.items + [block.items[2]]))
    ensures block.List? && |block.items| == 7 ==> r == Ok(List(block.items + [block.items[6]]))
    ensures block.List? && |block.items| != 3 && |block.items| != 7 ==> r == Ok(block)
    ensures !block.List? && r.Ok? ==> r.value == block
    ensures r.Raised? <==> Len(block).Raised? || (!block.List? && (Len(block).value == 3 || Len(block).value == 7))
  {
    match Len(block)
    case Raised(m) => Raised(m)
    case Ok(n) =>
      if n == 3 || n == 7 then
        if block.List? then Ok(List(block.items + [block.items[n - 1]]))
        else Raised(NoAttributeMessage(block, "append"))
      else Ok(block)
  }

  /** Repairing a repaired block changes nothing more. */
  lemma RepairBlockIdempotent(block: Json)
    requires RepairBlock(block).Ok?
    ensures RepairBlock(RepairBlock(block).value) == RepairBlock(block)
  {
  }

  /** Lines 102-108 for one section's `chords`: each block of a list is
      repaired in order, stopping at the first that raises. The items of a
      string are one-character strings, so a string is left as it is; so is an
      empty dict, while a non-empty one raises `KeyError(0)`; any other value
      has no `len`. */
  function RepairedChords(chords: Json): (r: Outcome<Json>)
    ensures chords.List? ==> (r.Ok? <==> forall j :: 0 <= j < |chords.items| ==> RepairBlock(chords.items[j]).Ok?)
    ensures chords.List? && r.Ok? ==>
      r.value.List? && |r.value.items| == |chords.items|
      && forall j :: 0 <= j < |chords.items| ==> RepairBlock(chords.items[j]) == Ok(r.value.items[j])
    ensures chords.List? && r.Raised? ==>
      exists k :: 0 <= k < |chords.items| && RepairBlock(chords.items[k]) == Raised(r.message)
        && forall j :: 0 <= j < k ==> RepairBlock(chords.items[j]).Ok?
    ensures !chords.List? && r.Ok? ==> r.value == chords
    ensures chords.Str? || chords == Dict([]) ==> r == Ok(chords)
    ensures chords.Dict? && chords.entries != [] ==> r == Raised(NatToString(0))
    ensures Len(chords).Raised? ==> r == Raised(Len(chords).message)
  {
    match chords
    case List(blocks) =>
      (match MapAll(RepairBlock, blocks)
       case Ok(repaired) => Ok(List(repaired))
       case Raised(m) => Raised(m))
    case Str(_) => Ok(chords)
    case Dict(entries) => if entries == [] then Ok(chords) else Raised(NatToString(0))
    case _ => Raised(NoLenMessage(chords))
  }

  /** Lines 103-108: the index loop that extends the blocks of `chords` in place. */
  method RepairChords(chords: Json) returns (r: Outcome<Json>)
    ensures r == RepairedChords(chords)
  {
    var n := Len(chords);
    if n.Raised? {
      return Raised(n.message);
    }
    var current := chords;
    for i := 0 to n.value
      invariant chords.List? ==> current.List? && |current.items| == |chords.items|
      invariant chords.List? ==> forall j :: 0 <= j < i ==> RepairBlock(chords.items[j]) == Ok(current.items[j])
      invariant chords.List? ==> forall j :: i <= j < |chords.items| ==> current.items[j] == chords.items[j]
      invariant !chords.List? ==> current == chords
      invariant chords.Dict? ==> i == 0
    {
      var item := ItemAt(current, i);
      if item.Raised? {
        return Raised(item.message);
      }
      var chordblock := item.value;
      var size := Len(chordblock);
      if size.Raised? {
        MapAllFirstFailure(RepairBlock, chords.items, i);
        return Raised(size.message);
      }
      if size.value == 3 {
        if !chordblock.List? {
          MapAllFirstFailure(RepairBlock, chords.items, i);
          return Raised(NoAttributeMessage(chordblock, "append"));
        }
        chordblock := List(chordblock.items + [chordblock.items[2]]);
        current := List(current.items[i := chordblock]);
        size := Len(chordblock);
      }
      if size.value == 7 {
        if !chordblock.List? {
          MapAllFirstFailure(RepairBlock, chords.items, i);
          return Raised(NoAttributeMessage(chordblock, "append"));
        }
        chordblock := List(chordblock.items + [chordblock.items[6]]);
        current := List(current.items[i := chordblock]);
      }
    }
    if chords.List? {
      MapAllAllOk(RepairBlock, chords.items, current.items);
    }
    return Ok(current);
  }

  /** Lines 101-108 for one section: a dict whose `chords` is present and not
      null gets its chords repaired in place; every other value is left alone. */
  function RepairedSection(v: Json): (r: Outcome<Json>)
    ensures !HasNonNull(v, "chords") ==> r == Ok(v)
    ensures HasNonNull(v, "chords") ==> (r.Ok? <==> RepairedChords(Lookup(v.entries, "chords").value).Ok?)
    ensures HasNonNull(v, "chords") && r.Ok? ==>
      r.value.Dict? && KeySeq(r.value.entries) == KeySeq(v.entries)
      && Lookup(r.value.entries, "chords") == Some(RepairedChords(Lookup(v.entries, "chords").value).value)
      && forall k :: k != "chords" ==> Lookup(r.value.entries, k) == Lookup(v.entries, k)
  {
    if HasNonNull(v, "chords") then
      match RepairedChords(Lookup(v.entries, "chords").value)
      case Raised(m) => Raised(m)
      case Ok(c) =>
        DictSetKeySeq(v.entries, "chords", c);
        Ok(Dict(DictSet(v.entries, "chords", c)))
    else Ok(v)
  }

  function RepairedEntry(e: (string, Json)): Outcome<(string, Json)> {
    match RepairedSection(e.1)
    case Ok(w) => Ok((e.0, w))
    case Raised(m) => Raised(m)
  }

  /** Lines 100-110: every section repaired, in order, keeping its name. */
  function RepairedSections(d: Entries): (r: Outcome<Entries>)
    ensures r.Ok? ==> KeySeq(r.value) == KeySeq(d)
    ensures r.Ok? ==> forall i :: 0 <= i < |d| ==> RepairedSection(d[i].1) == Ok(r.value[i].1)
    ensures r.Raised? ==>
      exists i :: 0 <= i < |d| && RepairedSection(d[i].1) == Raised(r.message)
        && forall j :: 0 <= j < i ==> RepairedSection(d[j].1).Ok?
  {
    MapAll(RepairedEntry, d)
  }

  /** Lines 100-110: the loop over the sections of the parsed reply. */
  method RepairSections(d: Entries) returns (r: Outcome<Entries>)
    ensures r == RepairedSections(d)
  {
    var resultDict := d;
    for i := 0 to |d|
      invariant |resultDict| == |d|
      invariant forall j :: 0 <= j < i ==> RepairedEntry(d[j]) == Ok(resultDict[j])
      invariant forall j :: i <= j < |d| ==> resultDict[j] == d[j]
    {
      var (key, value) := resultDict[i];
      if HasNonNull(value, "chords") {
        var chords := RepairChords(Lookup(value.entries, "chords").value);
        if chords.Raised? {
          MapAllFirstFailure(RepairedEntry, d, i);
          return Raised(chords.message);
        }
        resultDict := resultDict[i := (key, Dict(DictSet(value.entries, "chords", chords.value)))];
      }
    }
    MapAllAllOk(RepairedEntry, d, resultDict);
    return Ok(resultDict);
  }

  // ---------------------------------------------------------------------
  // Scale links (lines 112-126)

  /** Lines 118-122: the storage key of a scale name. The first space-separated
      token is the musical key and keeps its case; the other tokens are joined
      with `_` and lower-cased. */
  function StorageKey(scale: string): string {
    var tokens := Split(scale, " ");
    Lower(Join("_", tokens[1..])) + "_" + tokens[0] + ".txt"
  }

  /** The musical key goes last; the rest of the name, spaces turned into
      underscores, goes first in lower case. */
  lemma StorageKeyOfScale(musicalKey: string, rest: string)
    requires ' ' !in musicalKey
    ensures StorageKey(musicalKey + " " + rest) == Lower(ReplaceChar(rest, ' ', '_')) + "_" + musicalKey + ".txt"
  {
    SplitFirst(musicalKey, " ", rest);
    JoinSplitReplaces(rest, ' ', '_');
    var tokens := Split(musicalKey + " " + rest, " ");
    assert tokens[1..] == Split(rest, " ");
  }

  /** A one-word name has an empty scale part. */
  lemma StorageKeyOneWord(scale: string)
    requires ' ' !in scale
    ensures StorageKey(scale) == "_" + scale + ".txt"
  {
    SplitNoSeparator(scale, " ");
  }

  /** The scale "C Major Pentatonic" is stored as `major_pentatonic_C.txt`.
      The two words are parameters fixed by the precondition, so that the
      proof can name them when it appeals to `StorageKeyOfScale`. */
  lemma StorageKeyExample(musicalKey: string, rest: string)
    requires musicalKey == "C" && rest == "Major Pentatonic"
    ensures StorageKey(musicalKey + " " + rest) == "major_pentatonic_C.txt"
  {
    StorageKeyOfScale(musicalKey, rest);
    var underscored := ReplaceChar(rest, ' ', '_');
    assert underscored == "Major_Pentatonic";
    assert Lower(underscored) == "major_pentatonic";
  }

  /** The signer's answer as it is stored: the URL, or null when signing failed. */
  function UrlValue(url: Option<string>): Json {
    match url
    case Some(u) => Str(u)
    case None => Null
  }

  /** Line 123: the link stored for one scale name. */
  function Link(name: string, sign: string -> Option<string>): Json {
    UrlValue(sign(StorageKey(name)))
  }

  /** Line 118: `scale.split(' ')` needs a string. */
  function ScaleName(scale: Json): (r: Outcome<string>)
    ensures r.Ok? <==> scale.Str?
    ensures r.Ok? ==> r.value == scale.s
    ensures r.Raised? ==> r.message == NoAttributeMessage(scale, "split")
  {
    if scale.Str? then Ok(scale.s) else Raised(NoAttributeMessage(scale, "split"))
  }

  /** Line 123 as a function of the scale name alone, for the loop's dict. */
  function Linker(sign: string -> Option<string>): string -> Json {
    name => Link(name, sign)
  }

  /** Line 124 repeated: `s3_key_dict[name] = link(name)` for the names in order. */
  function UrlsOf(names: seq<string>, link: string -> Json): Entries
    decreases |names|
  {
    if names == [] then []
    else
      var n := |names| - 1;
      DictSet(UrlsOf(names[..n], link), names[n], link(names[n]))
  }

  /** The dict built from a list of names never holds a name twice. */
  lemma {:induction false} UrlsOfDistinct(names: seq<string>, link: string -> Json)
    ensures DistinctKeys(UrlsOf(names, link))
    decreases |names|
  {
    if names != [] {
      var n := |names| - 1;
      UrlsOfDistinct(names[..n], link);
      DictSetDistinct(UrlsOf(names[..n], link), names[n], link(names[n]));
    }
  }

  /** Assigning `x` its link keeps a dict that links exactly the names of
      `init` linking exactly the names of `init + [x]`. */
  lemma LinkedStep(d: Entries, init: seq<string>, x: string, link: string -> Json, k: string)
    requires Lookup(d, k) == if k in init then Some(link(k)) else None
    ensures Lookup(DictSet(d, x, link(x)), k) == if k in init + [x] then Some(link(k)) else None
  {
    assert k in init + [x] <==> k in init || k == x;
  }

  /** A name of the list holds its link in the dict built from the list; any
      other name is absent. */
  lemma {:induction false} UrlsOfLookup(names: seq<string>, link: string -> Json, k: string)
    ensures Lookup(UrlsOf(names, link), k) == if k in names then Some(link(k)) else None
    decreases |names|
  {
    if names != [] {
      var n := |names| - 1;
      var init := names[..n];
      assert names == init + [names[n]];
      UrlsOfLookup(init, link, k);
      LinkedStep(UrlsOf(init, link), init, names[n], link, k);
    }
  }

  /** The dict built from a list of names is keyed by exactly those names. */
  lemma UrlsOfKeys(names: seq<string>, link: string -> Json)
    ensures forall x :: x in KeySet(UrlsOf(names, link)) <==> x in names
  {
    forall x ensures x in KeySet(UrlsOf(names, link)) <==> x in names {
      UrlsOfLookup(names, link, x);
    }
  }

  /** `urls` has one entry per distinct string among the scales, holding that
      string's link. */
  ghost predicate LinksScales(urls: Entries, scales: seq<Json>, sign: string -> Option<string>) {
    DistinctKeys(urls)
    && (forall x :: x in KeySet(urls) <==> Str(x) in scales)
    && forall k :: k in KeySet(urls) ==> Lookup(urls, k) == Some(Link(k, sign))
  }

  /** Lines 116-124: the `s3_key_dict` built from one section's scales;
      `scale.split` raises on the first scale that is not a string. */
  function ScaleUrls(scales: seq<Json>, sign: string -> Option<string>): (r: Outcome<Entries>)
    ensures r.Ok? <==> forall j :: 0 <= j < |scales| ==> scales[j].Str?
    ensures r.Raised? ==>
      exists k :: 0 <= k < |scales| && !scales[k].Str? && r.message == NoAttributeMessage(scales[k], "split")
        && forall j :: 0 <= j < k ==> scales[j].Str?
  {
    match MapAll(ScaleName, scales)
    case Raised(m) => Raised(m)
    case Ok(names) => Ok(UrlsOf(names, Linker(sign)))
  }

  /** The names of a list of string scales are exactly its strings. */
  lemma ScaleNames(scales: seq<Json>, names: seq<string>)
    requires MapAll(ScaleName, scales) == Ok(names)
    ensures forall x :: x in names <==> Str(x) in scales
  {
    assert forall j :: 0 <= j < |scales| ==> scales[j] == Str(names[j]);
  }

  /** The `s3_key_dict` of a section whose scales are all strings has one
      entry per distinct scale name, holding the link for that name. */
  lemma ScaleUrlsLinks(scales: seq<Json>, sign: string -> Option<string>)
    requires ScaleUrls(scales, sign).Ok?
    ensures LinksScales(ScaleUrls(scales, sign).value, scales, sign)
  {
    var names := MapAll(ScaleName, scales).value;
    var urls := ScaleUrls(scales, sign).value;
    assert urls == UrlsOf(names, Linker(sign));
    UrlsOfDistinct(names, Linker(sign));
    UrlsOfKeys(names, Linker(sign));
    ScaleNames(scales, names);
    forall k | k in KeySet(urls)
      ensures Lookup(urls, k) == Some(Link(k, sign))
    {
      UrlsOfLookup(names, Linker(sign), k);
    }
  }

  /** Lines 116-126: a dict section after the loop over its scales; with no
      scales the loop never stores `urls`. */
  function WithUrls(v: Json, scales: seq<Json>, sign: string -> Option<string>): (r: Outcome<Json>)
    requires v.Dict?
    ensures r.Ok? ==> r.value.Dict? && forall k :: k != "urls" ==> Lookup(r.value.entries, k) == Lookup(v.entries, k)
    ensures scales == [] ==> r == Ok(v)
    ensures scales != [] ==> (r.Ok? <==> ScaleUrls(scales, sign).Ok?)
    ensures scales != [] && r.Ok? ==> Lookup(r.value.entries, "urls") == Some(Dict(ScaleUrls(scales, sign).value))
  {
    if scales == [] then Ok(v)
    else
      match ScaleUrls(scales, sign)
      case Raised(m) => Raised(m)
      case Ok(urls) => Ok(Dict(DictSet(v.entries, "urls", Dict(urls))))
  }

  /** Lines 114-126 for one section: a dict whose `scales` is present, not null
      and not empty gets `urls` set to the links of its scales; any other value
      is left alone, and no other field changes. */
  function EnrichedSection(v: Json, sign: string -> Option<string>): (r: Outcome<Json>)
    ensures !HasNonNull(v, "scales") ==> r == Ok(v)
    ensures r.Ok? && v.Dict? ==>
      r.value.Dict? && forall k :: k != "urls" ==> Lookup(r.value.entries, k) == Lookup(v.entries, k)
  {
    if HasNonNull(v, "scales") then
      match Iterate(Lookup(v.entries, "scales").value)
      case Raised(m) => Raised(m)
      case Ok(scales) => WithUrls(v, scales, sign)
    else Ok(v)
  }

  /** A section with scales keeps them unlinked when there are none; otherwise
      it is enriched exactly when every scale is a string, and then its `urls`
      links each distinct scale name. */
  lemma EnrichedSectionLinks(v: Json, sign: string -> Option<string>)
    requires HasNonNull(v, "scales")
    ensures var scales := Iterate(Lookup(v.entries, "scales").value);
      var r := EnrichedSection(v, sign);
      (r.Ok? <==> scales.Ok? && forall j :: 0 <= j < |scales.value| ==> scales.value[j].Str?)
      && (scales.Ok? && scales.value == [] ==> r == Ok(v))
      && (r.Ok? && scales.value != [] ==>
            Lookup(r.value.entries, "urls").Some? && Lookup(r.value.entries, "urls").value.Dict?
            && LinksScales(Lookup(r.value.entries, "urls").value.entries, scales.value, sign))
  {
    var scales := Iterate(Lookup(v.entries, "scales").value);
    if scales.Ok? && scales.value != [] && ScaleUrls(scales.value, sign).Ok? {
      ScaleUrlsLinks(scales.value, sign);
    }
  }

  /** A section with two scales gets a `urls` dict keyed by exactly those two
      names (one name when they coincide). */
  lemma TwoScalesLinked(v: Json, a: string, b: string, sign: string -> Option<string>)
    requires v == Dict([("scales", List([Str(a), Str(b)]))])
    ensures var r := EnrichedSection(v, sign);
      r.Ok? && r.value.Dict? && Lookup(r.value.entries, "urls").Some?
      && Lookup(r.value.entries, "urls").value.Dict?
      && forall x :: x in KeySet(Lookup(r.value.entries, "urls").value.entries) <==> x == a || x == b
  {
    var scales := [Str(a), Str(b)];
    assert Lookup(v.entries, "scales") == Some(List(scales));
    assert Iterate(Lookup(v.entries, "scales").value) == Ok(scales);
    EnrichedSectionLinks(v, sign);
    forall x ensures Str(x) in scales <==> x == a || x == b {
    }
  }

  function EnrichedEntry(e: (string, Json), sign: string -> Option<string>): Outcome<(string, Json)> {
    match EnrichedSection(e.1, sign)
    case Ok(w) => Ok((e.0, w))
    case Raised(m) => Raised(m)
  }

  function Enricher(sign: string -> Option<string>): ((string, Json)) -> Outcome<(string, Json)> {
    e => EnrichedEntry(e, sign)
  }

  /** Lines 112-126: every section enriched, in order, keeping its name. */
  function EnrichedSections(d: Entries, sign: string -> Option<string>): (r: Outcome<Entries>)
    ensures r.Ok? ==> KeySeq(r.value) == KeySeq(d)
    ensures r.Ok? ==> forall i :: 0 <= i < |d| ==> EnrichedSection(d[i].1, sign) == Ok(r.value[i].1)
    ensures r.Raised? ==>
      exists i :: 0 <= i < |d| && EnrichedSection(d[i].1, sign) == Raised(r.message)
        && forall j :: 0 <= j < i ==> EnrichedSection(d[j].1, sign).Ok?
  {
    MapAll(Enricher(sign), d)
  }

  /** Assigning `urls` to a section whose `urls` was last assigned by the
      same loop leaves only the latest assignment. */
  lemma StoreUrls(value: Json, section: Json, first: bool, previous: Entries, next: Entries)
    requires value.Dict?
    requires first ==> section == value
    requires !first ==> section == Dict(DictSet(value.entries, "urls", Dict(previous)))
    ensures Dict(DictSet(section.entries, "urls", Dict(next))) == Dict(DictSet(value.entries, "urls", Dict(next)))
  {
    if !first {
      DictSetTwice(value.entries, "urls", Dict(previous), Dict(next));
    }
  }

  /** One more name assigned into the dict. */
  lemma UrlsOfStep(names: seq<string>, name: string, link: string -> Json)
    ensures UrlsOf(names + [name], link) == DictSet(UrlsOf(names, link), name, link(name))
  {
    assert (names + [name])[..|names|] == names;
  }

  /** Lines 116-126: the loop over one section's scales, storing the growing
      `s3_key_dict` as the section's `urls` after every scale. */
  method StoreScaleUrls(value: Json, scales: seq<Json>, sign: string -> Option<string>) returns (r: Outcome<Json>)
    requires value.Dict?
    ensures r == WithUrls(value, scales, sign)
  {
    var section := value;
    var s3KeyDict: Entries := [];
    ghost var names: seq<string> := [];
    for j := 0 to |scales|
      invariant MapAll(ScaleName, scales[..j]) == Ok(names)
      invariant s3KeyDict == UrlsOf(names, Linker(sign))
      invariant j == 0 ==> section == value
      invariant j > 0 ==> section == Dict(DictSet(value.entries, "urls", Dict(s3KeyDict)))
    {
      var scale := scales[j];
      if !scale.Str? {
        MapAllStepRaised(ScaleName, scales, j);
        return Raised(NoAttributeMessage(scale, "split"));
      }
      MapAllStep(ScaleName, scales, j);
      var url := sign(StorageKey(scale.s));
      ghost var previous := s3KeyDict;
      s3KeyDict := DictSet(s3KeyDict, scale.s, UrlValue(url));
      UrlsOfStep(names, scale.s, Linker(sign));
      names := names + [scale.s];
      StoreUrls(value, section, j == 0, previous, s3KeyDict);
      section := Dict(DictSet(section.entries, "urls", Dict(s3KeyDict)));
    }
    assert scales[..|scales|] == scales;
    return Ok(section);
  }

  /** Lines 114-126 for one section. */
  method EnrichSection(value: Json, sign: string -> Option<string>) returns (r: Outcome<Json>)
    ensures r == EnrichedSection(value, sign)
  {
    if !HasNonNull(value, "scales") {
      return Ok(value);
    }
    var scales := Iterate(Lookup(value.entries, "scales").value);
    if scales.Raised? {
      return Raised(scales.message);
    }
    r := StoreScaleUrls(value, scales.value, sign);
  }

  /** Lines 112-126: the loop over the sections of the repaired reply. */
  method EnrichSections(d: Entries, sign: string -> Option<string>) returns (r: Outcome<Entries>)
    ensures r == EnrichedSections(d, sign)
  {
    var resultDict := d;
    for i := 0 to |d|
      invariant |resultDict| == |d|
      invariant MapAll(Enricher(sign), d[..i]) == Ok(resultDict[..i])
      invariant forall t :: i <= t < |d| ==> resultDict[t] == d[t]
    {
      var (key, value) := resultDict[i];
      var section := EnrichSection(value, sign);
      if section.Raised? {
        MapAllStepRaised(Enricher(sign), d, i);
        return Raised(section.message);
      }
      MapAllUpdate(Enricher(sign), d, resultDict, i, (key, section.value));
      resultDict := resultDict[i := (key, section.value)];
    }
    assert d[..|d|] == d && resultDict[..|d|] == resultDict;
    return Ok(resultDict);
  }

  // ---------------------------------------------------------------------
  // The whole of process_text

  /** Lines 131-138: what `process_text` returns when its body raises. */
  function Fallback(message: string, text: string): Json {
    Dict([("error", Str(message)), ("word_count", Int(|Words(text)|)),
          ("character_count", Int(|text|)), ("processed_text", Str(text))])
  }

  /** What `process_text` depends on besides its argument: the contents of the
      example files in the order the directory listing gives them, the language
      model (given the examples and the text, a reply or an exception),
      `json.loads`, and the URL signer for the resource bucket. */
  datatype Environment = Environment(
    exampleFiles: seq<string>,
    complete: (seq<Example>, string) -> Outcome<string>,
    loads: string -> Outcome<Json>,
    sign: string -> Option<string>)

  /** Lines 99-129: the two passes over the parsed reply; a reply that is not
      a dict has no `items`. */
  function Passes(parsed: Json, text: string, sign: string -> Option<string>): (r: Json)
    ensures r.Dict?
  {
    if !parsed.Dict? then Fallback(NoAttributeMessage(parsed, "items"), text)
    else
      match RepairedSections(parsed.entries)
      case Raised(m) => Fallback(m, text)
      case Ok(repaired) =>
        match EnrichedSections(repaired, sign)
        case Raised(m) => Fallback(m, text)
        case Ok(enriched) => Dict(enriched)
  }

  /** Lines 81-129, once the model has replied. */
  function Answer(text: string, raw: string, env: Environment): (r: Json)
    ensures r.Dict?
  {
    Passes(ParseOrDegrade(CleanResponse(raw), env.loads), text, env.sign)
  }

  /** Lines 28-138: the result of `process_text(text)`; always a dict. */
  function Processed(text: string, env: Environment): (r: Json)
    ensures r.Dict?
  {
    match MapAll(ParseExample, env.exampleFiles)
    case Raised(m) => Fallback(m, text)
    case Ok(examples) =>
      match env.complete(examples, text)
      case Raised(m) => Fallback(m, text)
      case Ok(raw) => Answer(text, raw, env)
  }

  /** Lines 28-138 step by step. */
  method ProcessText(text: string, env: Environment) returns (r: Json)
    ensures r == Processed(text, env)
  {
    var examples := LoadExamples(env.exampleFiles);
    if examples.Raised? {
      return Fallback(examples.message, text);
    }
    var response := env.complete(examples.value, text);
    if response.Raised? {
      return Fallback(response.message, text);
    }
    var result := CleanResponse(response.value);
    var resultDict := ParseOrDegrade(result, env.loads);
    if !resultDict.Dict? {
      return Fallback(NoAttributeMessage(resultDict, "items"), text);
    }
    var repaired := RepairSections(resultDict.entries);
    if repaired.Raised? {
      return Fallback(repaired.message, text);
    }
    var enriched := EnrichSections(repaired.value, env.sign);
    if enriched.Raised? {
      return Fallback(enriched.message, text);
    }
    return Dict(enriched.value);
  }

  /** Sections that are not dicts pass through both passes untouched. */
  lemma PlainSectionsUntouched(d: Entries, sign: string -> Option<string>)
    requires forall i :: 0 <= i < |d| ==> !d[i].1.Dict?
    ensures RepairedSections(d) == Ok(d)
    ensures EnrichedSections(d, sign) == Ok(d)
  {
    MapAllAllOk(RepairedEntry, d, d);
    assert forall i :: 0 <= i < |d| ==> Enricher(sign)(d[i]) == Ok(d[i]);
    MapAllAllOk(Enricher(sign), d, d);
  }

  /** Neither pass finds a section to change in the degraded dict. */
  lemma DegradedPasses(cleaned: string, text: string, sign: string -> Option<string>)
    ensures Passes(Degraded(cleaned), text, sign) == Degraded(cleaned)
  {
    var d := Degraded(cleaned).entries;
    assert !d[0].1.Dict? && !d[1].1.Dict?;
    PlainSectionsUntouched(d, sign);
  }

  /** A reply `json.loads` rejects comes back as the degraded dict. */
  lemma UnparseableReplyDegrades(text: string, env: Environment, raw: string)
    requires env.loads(CleanResponse(raw)).Raised?
    ensures Answer(text, raw, env) == Degraded(CleanResponse(raw))
  {
    var cleaned := CleanResponse(raw);
    assert ParseOrDegrade(cleaned, env.loads) == Degraded(cleaned);
    DegradedPasses(cleaned, text, env.sign);
  }

  /** The reply "not json", which `json.loads` rejects, is reported as such.
      The reply is a parameter fixed by the precondition, so that the proof
      speaks of one variable rather than unfolding the literal each time. */
  lemma NotJsonExample(text: string, env: Environment, raw: string)
    requires raw == "not json" && env.loads(raw).Raised?
    ensures Answer(text, raw, env) == Dict([("error", Str("Failed to parse response")), ("raw_response", Str(raw))])
  {
    assert IsStripped(raw) && !StartsWith(raw, JsonFence) by {
      assert raw[0] == 'n' && raw[|raw| - 1] == 'n';
    }
    UnfencedKept(raw);
    UnparseableReplyDegrades(text, env, raw);
  }

  /** An example file without `===` turns the whole result into the error dict. */
  lemma MissingSeparatorFallsBack(text: string, env: Environment, i: nat)
    requires i < |env.exampleFiles| && !Contains(env.exampleFiles[i], Separator)
    ensures Processed(text, env) == Fallback(ListIndexMessage, text)
  {
    MissingSeparatorRaises(env.exampleFiles, i);
  }

  /** The first section whose chord repair raises decides the error of the
      whole result. */
  lemma FirstRepairFailureFallsBack(d: Entries, text: string, sign: string -> Option<string>, i: nat, m: string)
    requires i < |d| && RepairedSection(d[i].1) == Raised(m)
    requires forall j :: 0 <= j < i ==> RepairedSection(d[j].1).Ok?
    ensures Passes(Dict(d), text, sign) == Fallback(m, text)
  {
    assert RepairedEntry(d[i]) == Raised(m);
    assert forall j :: 0 <= j < i ==> RepairedEntry(d[j]).Ok?;
    MapAllFirstFailure(RepairedEntry, d, i);
  }

  /** After a successful repair, the first section whose scale loop raises
      decides the error of the whole result. */
  lemma FirstEnrichFailureFallsBack(d: Entries, text: string, sign: string -> Option<string>,
                                    repaired: Entries, i: nat, m: string)
    requires RepairedSections(d) == Ok(repaired)
    requires i < |repaired| && EnrichedSection(repaired[i].1, sign) == Raised(m)
    requires forall j :: 0 <= j < i ==> EnrichedSection(repaired[j].1, sign).Ok?
    ensures Passes(Dict(d), text, sign) == Fallback(m, text)
  {
    assert Enricher(sign)(repaired[i]) == Raised(m);
    assert forall j :: 0 <= j < i ==> Enricher(sign)(repaired[j]).Ok?;
    MapAllFirstFailure(Enricher(sign), repaired, i);
  }

  /** A reply that parses to something other than a dict has no `items`. */
  lemma NonDictReplyFallsBack(text: string, env: Environment, raw: string, v: Json)
    requires env.loads(CleanResponse(raw)) == Ok(v) && !v.Dict?
    ensures Answer(text, raw, env) == Fallback(NoAttributeMessage(v, "items"), text)
  {
  }

  /** When both passes succeed, the result has the parsed sections in their
      order; a section that is not a dict is unchanged, a dict section keeps
      every field except `chords` and `urls`, and its non-null `chords` are
      the repaired ones. */
  lemma SuccessKeepsSections(d: Entries, text: string, sign: string -> Option<string>)
    requires RepairedSections(d).Ok? && EnrichedSections(RepairedSections(d).value, sign).Ok?
    ensures var r := Passes(Dict(d), text, sign);
      r.Dict? && KeySeq(r.entries) == KeySeq(d)
      && (forall i :: 0 <= i < |d| && !d[i].1.Dict? ==> r.entries[i].1 == d[i].1)
      && (forall i, k :: 0 <= i < |d| && d[i].1.Dict? && k != "chords" && k != "urls" ==>
            r.entries[i].1.Dict? && Lookup(r.entries[i].1.entries, k) == Lookup(d[i].1.entries, k))
      && (forall i :: 0 <= i < |d| && HasNonNull(d[i].1, "chords") ==>
            r.entries[i].1.Dict?
            && Lookup(r.entries[i].1.entries, "chords") == Some(RepairedChords(Lookup(d[i].1.entries, "chords").value).value))
  {
    var repaired := RepairedSections(d).value;
    var enriched := EnrichedSections(repaired, sign).value;
    assert Passes(Dict(d), text, sign) == Dict(enriched);
    forall i | 0 <= i < |d|
      ensures RepairedSection(d[i].1) == Ok(repaired[i].1)
      ensures EnrichedSection(repaired[i].1, sign) == Ok(enriched[i].1)
    {
    }
  }
}

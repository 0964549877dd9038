/** The OpenCode model catalog: parsing the CLI's verbose listing of models and their effort variants. */
module Catalog {
  import opened Text
  import opened Json

  const MAX_MODELS := 256
  const MAX_OBJECT_BYTES := 64 * 1024

  // ---------------------------------------------------------------------------
  // Efforts
  // ---------------------------------------------------------------------------

  datatype Effort = Off | Minimal | Low | Medium | High | Xhigh | Max

  const EFFORT_ORDER: seq<Effort> := [Off, Minimal, Low, Medium, High, Xhigh, Max]

  function EffortFromVariant(variant: string): Option<Effort> {
    if variant == "none" || variant == "off" then Some(Off)
    else if variant == "minimal" then Some(Minimal)
    else if variant == "low" then Some(Low)
    else if variant == "medium" then Some(Medium)
    else if variant == "high" then Some(High)
    else if variant == "xhigh" then Some(Xhigh)
    else if variant == "max" then Some(Max)
    else None
  }

  predicate Offers(keys: seq<string>, effort: Effort) {
    exists i :: 0 <= i < |keys| && EffortFromVariant(keys[i]) == Some(effort)
  }

  function Keep(order: seq<Effort>, supported: set<Effort>): seq<Effort> {
    if order == [] then []
    else (if order[0] in supported then [order[0]] else []) + Keep(order[1..], supported)
  }

  /** The ladder of a variants map: the efforts its keys name, in canonical order. */
  ghost function Ladder(keys: seq<string>): seq<Effort> {
    Keep(EFFORT_ORDER, set e: Effort | Offers(keys, e))
  }

  /** Collect the known efforts of the keys, in the order of the ladder. */
  method EffortsOfVariants(keys: seq<string>) returns (efforts: seq<Effort>)
    ensures efforts == Ladder(keys)
  {
    hide Offers, Keep, EffortFromVariant;
    var supported: seq<Effort> := [];
    NothingOffered();
    for i := 0 to |keys|
      invariant forall e :: e in supported <==> Offers(keys[..i], e)
    {
      assert keys[..i + 1] == keys[..i] + [keys[i]];
      OffersPush(keys[..i], keys[i]);
      var effort := EffortFromVariant(keys[i]);
      if effort.Some? && effort.value !in supported {
        supported := supported + [effort.value];
      }
    }
    assert keys[..|keys|] == keys;
    efforts := [];
    ghost var wanted := set e: Effort | Offers(keys, e);
    for j := 0 to |EFFORT_ORDER|
      invariant efforts + Keep(EFFORT_ORDER[j..], wanted) == Keep(EFFORT_ORDER, wanted)
    {
      KeepNext(efforts, j, wanted);
      if EFFORT_ORDER[j] in supported {
        efforts := efforts + [EFFORT_ORDER[j]];
      }
    }
    KeepNone(wanted);
    assert EFFORT_ORDER[|EFFORT_ORDER|..] == [] && efforts + [] == efforts;
  }

  lemma {:induction false} NothingOffered()
    ensures forall e :: !Offers([], e)
  {
  }

  // One effort more is kept, or passed over.
  lemma {:induction false} KeepNext(kept: seq<Effort>, j: nat, wanted: set<Effort>)
    requires j < |EFFORT_ORDER|
    ensures kept + Keep(EFFORT_ORDER[j..], wanted)
         == (if EFFORT_ORDER[j] in wanted then kept + [EFFORT_ORDER[j]] else kept) + Keep(EFFORT_ORDER[j + 1..], wanted)
  {
    hide Keep;
    KeepFirst(EFFORT_ORDER[j..], wanted);
    assert EFFORT_ORDER[j..][1..] == EFFORT_ORDER[j + 1..];
    Regroup(kept, if EFFORT_ORDER[j] in wanted then [EFFORT_ORDER[j]] else [], Keep(EFFORT_ORDER[j + 1..], wanted));
  }

  lemma {:induction false} KeepFirst(order: seq<Effort>, supported: set<Effort>)
    requires order != []
    ensures Keep(order, supported)
         == (if order[0] in supported then [order[0]] else []) + Keep(order[1..], supported)
  {
  }

  lemma {:induction false} KeepNone(supported: set<Effort>)
    ensures Keep([], supported) == []
  {
  }

  lemma {:induction false} OffersPush(keys: seq<string>, key: string)
    ensures forall e :: Offers(keys + [key], e) <==> Offers(keys, e) || EffortFromVariant(key) == Some(e)
  {
    forall e
      ensures Offers(keys + [key], e) <==> Offers(keys, e) || EffortFromVariant(key) == Some(e)
    {
      assert (keys + [key])[|keys|] == key;
      if Offers(keys, e) {
        var i :| 0 <= i < |keys| && EffortFromVariant(keys[i]) == Some(e);
        assert (keys + [key])[i] == keys[i];
      }
    }
  }

  function Rank(e: Effort): nat {
    match e
    case Off => 0 case Minimal => 1 case Low => 2 case Medium => 3 case High => 4 case Xhigh => 5 case Max => 6
  }

  lemma {:induction false} KeepIsAscending(order: seq<Effort>, supported: set<Effort>)
    requires forall i, j :: 0 <= i < j < |order| ==> Rank(order[i]) < Rank(order[j])
    ensures var r := Keep(order, supported);
            (forall e :: e in r <==> e in order && e in supported)
            && (forall i, j :: 0 <= i < j < |r| ==> Rank(r[i]) < Rank(r[j]))
  {
    if order != [] {
      KeepIsAscending(order[1..], supported);
      assert order == [order[0]] + order[1..];
      forall e | e in Keep(order[1..], supported)
        ensures Rank(order[0]) < Rank(e)
      {
        var i :| 0 <= i < |order[1..]| && order[1..][i] == e;
        assert order[i + 1] == e;
      }
    }
  }

  lemma {:induction false} KeepOne(first: Effort, rest: seq<Effort>, supported: set<Effort>)
    ensures Keep([first] + rest, supported) == (if first in supported then [first] else []) + Keep(rest, supported)
  {
    assert ([first] + rest)[1..] == rest;
  }

  function Named(keys: seq<string>, key: string, effort: Effort): seq<Effort> {
    if key in keys then [effort] else []
  }

  /** The ladder spelled out: each rung under the key that names it, the first under either of two. */
  lemma {:induction false} LadderIsSpelled(keys: seq<string>)
    ensures Ladder(keys)
         == (if "none" in keys || "off" in keys then [Off] else [])
            + (Named(keys, "minimal", Minimal)
               + (Named(keys, "low", Low)
                  + (Named(keys, "medium", Medium)
                     + (Named(keys, "high", High) + (Named(keys, "xhigh", Xhigh) + Named(keys, "max", Max))))))
  {
    OfferedIsNamed(keys);
    hide Offers, EffortFromVariant, Keep;
    var supported := set e: Effort | Offers(keys, e);
    var last3 := [High] + ([Xhigh] + [Max]);
    var last6 := [Minimal] + ([Low] + ([Medium] + last3));
    KeepOne(Off, last6, supported);
    KeepOne(Minimal, [Low] + ([Medium] + last3), supported);
    KeepOne(Low, [Medium] + last3, supported);
    KeepOne(Medium, last3, supported);
    KeepOne(High, [Xhigh] + [Max], supported);
    KeepOne(Xhigh, [Max], supported);
    assert [Max] == [Max] + [];
    KeepOne(Max, [], supported);
    KeepNone(supported);
    assert Named(keys, "max", Max) + [] == Named(keys, "max", Max);
    assert [Off] + last6 == EFFORT_ORDER;
  }

  lemma {:induction false} OfferedIsNamed(keys: seq<string>)
    ensures Offers(keys, Off) <==> "none" in keys || "off" in keys
    ensures Offers(keys, Minimal) <==> "minimal" in keys
    ensures Offers(keys, Low) <==> "low" in keys
    ensures Offers(keys, Medium) <==> "medium" in keys
    ensures Offers(keys, High) <==> "high" in keys
    ensures Offers(keys, Xhigh) <==> "xhigh" in keys
    ensures Offers(keys, Max) <==> "max" in keys
  {
    assert forall key :: EffortFromVariant(key) == Some(Off) <==> key == "none" || key == "off";
  }

  /** A ladder lists exactly the efforts the keys name, each once, from lowest to highest. */
  lemma {:induction false} LadderIsCanonical(keys: seq<string>)
    ensures forall e :: e in Ladder(keys) <==> Offers(keys, e)
    ensures forall i, j :: 0 <= i < j < |Ladder(keys)| ==> Rank(Ladder(keys)[i]) < Rank(Ladder(keys)[j])
  {
    KeepIsAscending(EFFORT_ORDER, set e: Effort | Offers(keys, e));
    forall e: Effort
      ensures e in EFFORT_ORDER
    {
      assert EFFORT_ORDER[Rank(e)] == e;
    }
  }

  // ---------------------------------------------------------------------------
  // Lines and headers
  // ---------------------------------------------------------------------------

  function StripCr(line: string): string {
    if line != "" && line[|line| - 1] == '\r' then line[..|line| - 1] else line
  }

  /** The lines of a text: cut at newlines, a carriage return before one dropped with it. */
  function Lines(s: string): (lines: seq<string>)
    ensures forall i :: 0 <= i < |lines| ==> '\n' !in lines[i]
    decreases |s|
  {
    match SplitOnce(s, '\n')
    case Some((line, rest)) =>
      SplitOnceShrinks(s, '\n');
      [StripCr(line)] + Lines(rest)
    case None =>
      SplitOnceMisses(s, '\n');
      if s == "" then [] else [s]
  }

  function Join(lines: seq<string>): string {
    if lines == [] then ""
    else if |lines| == 1 then lines[0]
    else lines[0] + ("\n" + Join(lines[1..]))
  }

  function Utf8Length(c: char): nat {
    var n := c as int;
    if n < 0x80 then 1 else if n < 0x800 then 2 else if n < 0x1_0000 then 3 else 4
  }

  function Bytes(s: string): nat {
    if s == "" then 0 else Utf8Length(s[0]) + Bytes(s[1..])
  }

  function TotalBytes(lines: seq<string>): nat {
    if lines == [] then 0 else TotalBytes(lines[..|lines| - 1]) + Bytes(lines[|lines| - 1])
  }

  function TrimStart(s: string): string {
    if s != "" && IsSpace(s[0]) then TrimStart(s[1..]) else s
  }

  function TrimEnd(s: string): string {
    if s != "" && IsSpace(s[|s| - 1]) then TrimEnd(s[..|s| - 1]) else s
  }

  function Trim(s: string): string {
    TrimEnd(TrimStart(s))
  }

  predicate IsNameChar(c: char) {
    'a' <= c <= 'z' || 'A' <= c <= 'Z' || IsDigit(c) || c == '-' || c == '_'
  }

  predicate IsProvider(s: string) {
    s != "" && forall i :: 0 <= i < |s| ==> IsNameChar(s[i])
  }

  predicate IsModel(s: string) {
    s != "" && forall i :: 0 <= i < |s| ==> IsNameChar(s[i]) || s[i] == '.'
  }

  /** Whether a line, blanks around it aside, is a standalone `provider/model`. */
  predicate IsModelHeader(line: string) {
    var t := Trim(line);
    Bytes(t) <= 256
    && match SplitOnce(t, '/')
       case Some((provider, model)) => IsProvider(provider) && IsModel(model)
       case None => false
  }

  /** A printed model id: at most 256 characters, one slash among them with letters, digits, hyphens and underscores on
      both sides, and dots behind it. */
  predicate IsModelId(id: string) {
    |id| <= 256
    && exists k :: 0 < k < |id| - 1 && id[k] == '/'
                   && forall i :: 0 <= i < |id| && i != k ==> IsIdChar(id[i]) || (i > k && id[i] == '.')
  }

  predicate IsIdChar(c: char) {
    0x61 <= c as int <= 0x7A || 0x41 <= c as int <= 0x5A || 0x30 <= c as int <= 0x39 || c == '-' || c == '_'
  }

  // A trimmed text with a name on both sides of its first slash is a printed model id.
  lemma {:induction false} HeaderHasId(t: string)
    requires Bytes(t) <= 256 && SplitOnce(t, '/').Some?
    requires IsProvider(SplitOnce(t, '/').value.0) && IsModel(SplitOnce(t, '/').value.1)
    ensures IsModelId(t)
  {
    SplitOnceShrinks(t, '/');
    var (provider, model) := SplitOnce(t, '/').value;
    var k := |provider|;
    assert t == provider + ['/'] + model;
    assert t[k] == '/';
    forall i | 0 <= i < |t| && i != k
      ensures IsIdChar(t[i]) || (i > k && t[i] == '.')
    {
      assert t[i] == if i < k then provider[i] else model[i - k - 1];
    }
    AsciiBytes(t);
  }

  lemma {:induction false} IdHasHeader(t: string)
    requires IsModelId(t)
    ensures Bytes(t) <= 256 && SplitOnce(t, '/').Some?
    ensures IsProvider(SplitOnce(t, '/').value.0) && IsModel(SplitOnce(t, '/').value.1)
  {
    hide SplitOnce, Bytes;
    var k :| 0 < k < |t| - 1 && t[k] == '/'
             && forall i :: 0 <= i < |t| && i != k ==> IsIdChar(t[i]) || (i > k && t[i] == '.');
    var provider, model := t[..k], t[k + 1..];
    assert t == provider + ['/'] + model;
    forall i | 0 <= i < |model|
      ensures IsNameChar(model[i]) || model[i] == '.'
    {
      assert model[i] == t[k + 1 + i];
    }
    SplitOnceAt(provider, '/', model);
    AsciiBytes(t);
  }

  lemma {:induction false} AsciiBytes(s: string)
    requires forall i :: 0 <= i < |s| ==> s[i] as int < 0x80
    ensures Bytes(s) == |s|
  {
    if s != "" {
      AsciiBytes(s[1..]);
    }
  }

  ghost predicate IsIdWithin(line: string, a: int, b: int) {
    0 <= a <= b <= |line| && Blank(line[..a]) && Blank(line[b..]) && IsModelId(line[a..b])
  }

  /** A line is a header exactly if, white space around it aside, it is a printed model id; and that is what is kept. */
  lemma {:induction false} HeaderIsModelId(line: string)
    ensures IsModelHeader(line) <==> exists a, b :: IsIdWithin(line, a, b)
    ensures forall a, b :: IsIdWithin(line, a, b) ==> Trim(line) == line[a..b]
  {
    hide IsModelId, IsProvider, IsModel, Bytes, SplitOnce, Trim;
    if IsModelHeader(line) {
      HeaderHasId(Trim(line));
      var a, b := TrimEnds(line);
      assert IsIdWithin(line, a, b);
    }
    forall a, b | IsIdWithin(line, a, b)
      ensures Trim(line) == line[a..b] && IsModelHeader(line)
    {
      ModelIdEnds(line[a..b]);
      TrimAround(line[..a], line[a..b], line[b..]);
      assert line == line[..a] + line[a..b] + line[b..];
      IdHasHeader(line[a..b]);
    }
  }

  // A printed model id by itself is a header, with nothing to trim.
  lemma {:induction false} IdIsHeader(id: string)
    requires IsModelId(id)
    ensures IsModelHeader(id) && Trim(id) == id
  {
    hide IsModelId, IsModelHeader, Trim;
    HeaderIsModelId(id);
    assert id[0..|id|] == id;
    assert IsIdWithin(id, 0, |id|);
  }

  lemma {:induction false} TrimEnds(s: string) returns (a: nat, b: nat)
    ensures a <= b <= |s| && Blank(s[..a]) && Blank(s[b..]) && Trim(s) == s[a..b]
  {
    a := TrimStartEnds(s);
    var n := TrimEndEnds(s[a..]);
    b := a + n;
    assert s[a..][n..] == s[b..] && s[a..][..n] == s[a..b];
  }

  lemma {:induction false} TrimStartEnds(s: string) returns (a: nat)
    ensures a <= |s| && Blank(s[..a]) && TrimStart(s) == s[a..]
  {
    a := 0;
    if s != "" && IsSpace(s[0]) {
      a := TrimStartEnds(s[1..]);
      assert s[..1 + a] == [s[0]] + s[1..][..a];
      a := 1 + a;
    }
  }

  lemma {:induction false} TrimEndEnds(s: string) returns (b: nat)
    ensures b <= |s| && Blank(s[b..]) && TrimEnd(s) == s[..b]
  {
    b := |s|;
    if s != "" && IsSpace(s[|s| - 1]) {
      b := TrimEndEnds(s[..|s| - 1]);
      assert s[b..] == s[..|s| - 1][b..] + [s[|s| - 1]] && s[..|s| - 1][..b] == s[..b];
    }
  }

  lemma {:induction false} ModelIdEnds(id: string)
    requires IsModelId(id)
    ensures id != "" && !IsSpace(id[0]) && !IsSpace(id[|id| - 1])
  {
    var k :| 0 < k < |id| - 1 && id[k] == '/'
             && forall i :: 0 <= i < |id| && i != k ==> IsIdChar(id[i]) || (i > k && id[i] == '.');
    assert IsIdChar(id[0]);
  }

  lemma {:induction false} TrimAround(before: string, s: string, after: string)
    requires Blank(before) && Blank(after) && s != "" && !IsSpace(s[0]) && !IsSpace(s[|s| - 1])
    ensures Trim(before + s + after) == s
  {
    TrimStartAround(before, s + after);
    TrimEndAround(s, after);
    assert before + s + after == before + (s + after);
  }

  lemma {:induction false} TrimStartAround(before: string, s: string)
    requires Blank(before) && s != "" && !IsSpace(s[0])
    ensures TrimStart(before + s) == s
  {
    if before == "" {
      assert before + s == s;
    } else {
      TrimStartAround(before[1..], s);
      assert (before + s)[1..] == before[1..] + s;
    }
  }

  lemma {:induction false} TrimEndAround(s: string, after: string)
    requires Blank(after) && s != "" && !IsSpace(s[|s| - 1])
    ensures TrimEnd(s + after) == s
  {
    if after == "" {
      assert s + after == s;
    } else {
      var n := |after| - 1;
      TrimEndAround(s, after[..n]);
      assert (s + after)[..|s + after| - 1] == s + after[..n];
    }
  }

  // ---------------------------------------------------------------------------
  // Brace depth, one line at a time
  // ---------------------------------------------------------------------------

  function DepthOf(s: Option<Scan>): Option<int> {
    if s.Some? then Some(s.value.depth) else None
  }

  function LineDepth(line: string, depth: int): Option<int> {
    DepthOf(ScanText(Outside(depth), line))
  }

  /** The brace depth after one line, or None when it closes more than is open. */
  method ClosesObject(line: string, depth0: int) returns (r: Option<int>)
    requires '\n' !in line
    ensures r == LineDepth(line, depth0)
  {
    var depth, inString, escaped := depth0, false, false;
    for i := 0 to |line|
      invariant ScanText(Outside(depth0), line) == ScanText(Scan(depth, inString, escaped), line[i..])
    {
      var ch := line[i];
      assert line[i..][1..] == line[i + 1..];
      if inString {
        if escaped {
          escaped := false;
        } else if ch == '\\' {
          escaped := true;
        } else if ch == '"' {
          inString := false;
        }
      } else {
        match ch {
          case '"' => inString := true;
          case '{' => depth := depth + 1;
          case '}' =>
            depth := depth - 1;
            if depth < 0 {
              return None;
            }
          case _ =>
        }
      }
    }
    r := Some(depth);
  }

  function DepthOfLines(lines: seq<string>, depth: int): Option<int> {
    if lines == [] then Some(depth)
    else
      var d :- LineDepth(lines[0], depth);
      DepthOfLines(lines[1..], d)
  }

  lemma {:induction false} DepthOfLinesPush(lines: seq<string>, line: string, depth: int)
    ensures DepthOfLines(lines + [line], depth)
         == match DepthOfLines(lines, depth) case None => None case Some(d) => LineDepth(line, d)
  {
    if lines != [] {
      assert (lines + [line])[1..] == lines[1..] + [line];
      var d := LineDepth(lines[0], depth);
      if d.Some? {
        DepthOfLinesPush(lines[1..], line, d.value);
      }
    }
  }

  // Scanning joined lines is folding the depth over them.
  lemma {:induction false} JoinedDepth(lines: seq<string>, depth: int)
    ensures DepthOf(ScanText(Outside(depth), Join(lines))) == DepthOfLines(lines, depth)
  {
    if |lines| == 1 {
      assert DepthOfLines(lines[1..], depth) == Some(depth);
    } else if |lines| > 1 {
      var tail := "\n" + Join(lines[1..]);
      ScanAppend(Outside(depth), lines[0], tail);
      assert tail[1..] == Join(lines[1..]);
      var d := LineDepth(lines[0], depth);
      if d.Some? {
        JoinedDepth(lines[1..], d.value);
      }
    }
  }

  // ---------------------------------------------------------------------------
  // The parser
  // ---------------------------------------------------------------------------

  datatype ModelInfo = ModelInfo(id: string, efforts: seq<Effort>)

  /** The JSON reader: None for text it refuses, else the keys of the root's `variants` map, none when
      there is no such map. */
  type Reader = string -> Option<seq<string>>

  /** A reader accepts nothing outside the JSON grammar. */
  ghost predicate Grammatical(read: Reader) {
    forall text: string :: read(text).Some? ==> IsJson(text)
  }

  /** The parser between two lines. */
  datatype Parser = Parser(out: seq<ModelInfo>, id: Option<string>, body: seq<string>, bytes: nat, depth: int)

  const START := Parser([], None, [], 0, 0)

  ghost function Flushed(p: Parser, read: Reader): seq<ModelInfo> {
    if p.id.None? || p.body == [] || TotalBytes(p.body) > MAX_OBJECT_BYTES then p.out
    else
      match read(Join(p.body))
      case None => p.out
      case Some(keys) => p.out + [ModelInfo(p.id.value, Ladder(keys))]
  }

  function Dropped(p: Parser): Parser {
    Parser(p.out, None, [], 0, 0)
  }

  ghost function StepLine(p: Parser, line: string, read: Reader): Parser {
    if IsModelHeader(Trim(line)) then Parser(Flushed(p, read), Some(Trim(line)), [], 0, 0)
    else if p.id.None? then p
    else if Oversized(p, line) then Dropped(p)
    else
      var q := p.(body := p.body + [line], bytes := p.bytes + Bytes(line));
      match LineDepth(line, p.depth)
      case None => Dropped(p)
      case Some(d) => if d == 0 then Parser(Flushed(q, read), None, [], 0, 0) else q.(depth := d)
  }

  predicate Oversized(p: Parser, line: string) {
    p.id.Some? && p.bytes + Bytes(line) > MAX_OBJECT_BYTES
  }

  // The cap is looked at after every line but a header or one that overflows its object.
  predicate Stops(p: Parser, line: string, p': Parser) {
    !IsModelHeader(Trim(line)) && !Oversized(p, line) && |p'.out| >= MAX_MODELS
  }

  ghost function Run(p: Parser, lines: seq<string>, read: Reader): Parser
    decreases |lines|
  {
    if lines == [] then p
    else
      var p' := StepLine(p, lines[0], read);
      if Stops(p, lines[0], p') then p' else Run(p', lines[1..], read)
  }

  /** The models found in a listing, in the order found. */
  ghost function Found(stdout: string, read: Reader): seq<ModelInfo> {
    Flushed(Run(START, Lines(stdout), read), read)
  }

  // A stable sort by id, and the removal of neighbours with equal ids.

  function InsertById(m: ModelInfo, sorted: seq<ModelInfo>): seq<ModelInfo> {
    if sorted == [] || !LexLess(sorted[0].id, m.id) then [m] + sorted
    else [sorted[0]] + InsertById(m, sorted[1..])
  }

  function SortById(models: seq<ModelInfo>): seq<ModelInfo> {
    if models == [] then [] else InsertById(models[0], SortById(models[1..]))
  }

  function DedupById(models: seq<ModelInfo>): seq<ModelInfo>
    decreases |models|
  {
    if |models| < 2 then models
    else if models[0].id == models[1].id then DedupById([models[0]] + models[2..])
    else [models[0]] + DedupById(models[1..])
  }

  function Listing(models: seq<ModelInfo>): seq<ModelInfo> {
    DedupById(SortById(models))
  }

  method Flush(out: seq<ModelInfo>, id: Option<string>, body: seq<string>, read: Reader)
    returns (r: seq<ModelInfo>)
    ensures forall bytes, depth :: r == Flushed(Parser(out, id, body, bytes, depth), read)
  {
    if id.None? || body == [] || TotalBytes(body) > MAX_OBJECT_BYTES {
      return out;
    }
    var root := read(Join(body));
    if root.None? {
      return out;
    }
    var efforts := EffortsOfVariants(root.value);
    r := out + [ModelInfo(id.value, efforts)];
  }

  /** Parse the raw output of the CLI's verbose model listing. */
  method ParseVerboseOutput(stdout: string, read: Reader) returns (models: seq<ModelInfo>)
    ensures models == Listing(Found(stdout, read))
  {
    var out: seq<ModelInfo> := [];
    var currentId: Option<string> := None;
    var body: seq<string> := [];
    var bytes: nat, depth := 0, 0;
    var lines := Lines(stdout);
    var i := 0;
    while i < |lines|
      invariant 0 <= i <= |lines|
      invariant Run(START, lines, read) == Run(Parser(out, currentId, body, bytes, depth), lines[i..], read)
    {
      var line := lines[i];
      ghost var p := Parser(out, currentId, body, bytes, depth);
      assert lines[i..][0] == line && lines[i..][1..] == lines[i + 1..];
      i := i + 1;
      var trimmed := Trim(line);
      if IsModelHeader(trimmed) {
        out := Flush(out, currentId, body, read);
        currentId, body, bytes, depth := Some(trimmed), [], 0, 0;
        continue;
      }
      if currentId.Some? {
        if bytes + Bytes(line) > MAX_OBJECT_BYTES {
          currentId, body, bytes, depth := None, [], 0, 0;
          continue;
        } else {
          body := body + [line];
          bytes := bytes + Bytes(line);
          var closed := ClosesObject(line, depth);
          match closed {
            case Some(d) =>
              if d == 0 {
                out := Flush(out, currentId, body, read);
                currentId, body, bytes, depth := None, [], 0, 0;
              } else {
                depth := d;
              }
            case None =>
              currentId, body, bytes, depth := None, [], 0, 0;
          }
        }
      }
      assert Parser(out, currentId, body, bytes, depth) == StepLine(p, line, read);
      if |out| >= MAX_MODELS {
        assert Run(p, lines[i - 1..], read) == Parser(out, currentId, body, bytes, depth);
        break;
      }
    }
    ghost var last := Parser(out, currentId, body, bytes, depth);
    out := Flush(out, currentId, body, read);
    assert out == Flushed(last, read);
    models := DedupById(SortById(out));
  }

  // ---------------------------------------------------------------------------
  // The cap
  // ---------------------------------------------------------------------------

  /** An object in flight is open, and its depth is that of its lines. */
  predicate Tracks(p: Parser) {
    p.bytes == TotalBytes(p.body)
    && (p.id.None? ==> p.body == [])
    && (if p.body == [] then p.depth == 0 else p.depth != 0 && DepthOfLines(p.body, 0) == Some(p.depth))
  }

  /** Lines left at non-zero depth are no JSON text, so flushing them adds no entry. */
  lemma {:induction false} OpenObjectIsNotFlushed(p: Parser, read: Reader)
    requires Tracks(p) && Grammatical(read)
    ensures Flushed(p, read) == p.out
  {
    if p.body != [] && read(Join(p.body)).Some? {
      JsonIsLevel(Join(p.body));
      JoinedDepth(p.body, 0);
    }
  }

  lemma {:induction false} StepTracks(p: Parser, line: string, read: Reader)
    requires Tracks(p) && Grammatical(read)
    ensures Tracks(StepLine(p, line, read))
    ensures var p' := StepLine(p, line, read);
            |p.out| <= |p'.out| <= |p.out| + 1
            && (IsModelHeader(Trim(line)) || Oversized(p, line) ==> p'.out == p.out)
  {
    OpenObjectIsNotFlushed(p, read);
    var body := p.body + [line];
    assert body[..|p.body|] == p.body;
    DepthOfLinesPush(p.body, line, 0);
  }

  lemma {:induction false} RunTracks(p: Parser, lines: seq<string>, read: Reader)
    requires Tracks(p) && Grammatical(read) && |p.out| < MAX_MODELS
    ensures Tracks(Run(p, lines, read)) && |Run(p, lines, read).out| <= MAX_MODELS
    decreases |lines|
  {
    if lines != [] {
      StepTracks(p, lines[0], read);
      var p' := StepLine(p, lines[0], read);
      if !Stops(p, lines[0], p') {
        RunTracks(p', lines[1..], read);
      }
    }
  }

  // ---------------------------------------------------------------------------
  // Sorting and removing duplicates
  // ---------------------------------------------------------------------------

  function FirstWithId(models: seq<ModelInfo>, id: string): Option<ModelInfo> {
    if models == [] then None
    else if models[0].id == id then Some(models[0])
    else FirstWithId(models[1..], id)
  }

  predicate Ascending(models: seq<ModelInfo>) {
    forall i :: 0 < i < |models| ==> !LexLess(models[i].id, models[i - 1].id)
  }

  predicate StrictlyAscending(models: seq<ModelInfo>) {
    forall i :: 0 < i < |models| ==> LexLess(models[i - 1].id, models[i].id)
  }

  lemma {:induction false} InsertIsStable(m: ModelInfo, sorted: seq<ModelInfo>, id: string)
    requires Ascending(sorted)
    ensures var r := InsertById(m, sorted);
            Ascending(r) && |r| == |sorted| + 1
            && (r[0] == m || (sorted != [] && r[0] == sorted[0]))
            && FirstWithId(r, id) == if m.id == id then Some(m) else FirstWithId(sorted, id)
  {
    if sorted == [] {
      assert [m][1..] == [];
    } else if !LexLess(sorted[0].id, m.id) {
      assert ([m] + sorted)[1..] == sorted;
    } else {
      LexLessIsStrictOrder(sorted[0].id, m.id);
      InsertIsStable(m, sorted[1..], id);
      var tail := InsertById(m, sorted[1..]);
      assert ([sorted[0]] + tail)[1..] == tail;
      assert forall i :: 0 < i < |tail| + 1 ==> ([sorted[0]] + tail)[i] == tail[i - 1];
    }
  }

  lemma {:induction false} SortIsStable(models: seq<ModelInfo>, id: string)
    ensures var r := SortById(models);
            Ascending(r) && |r| == |models| && FirstWithId(r, id) == FirstWithId(models, id)
  {
    if models != [] {
      SortIsStable(models[1..], id);
      InsertIsStable(models[0], SortById(models[1..]), id);
    }
  }

  lemma {:induction false} DedupKeepsFirst(models: seq<ModelInfo>, id: string)
    requires Ascending(models)
    ensures var r := DedupById(models);
            StrictlyAscending(r) && |r| <= |models| && (models != [] ==> r != [] && r[0].id == models[0].id)
            && FirstWithId(r, id) == FirstWithId(models, id)
    decreases |models|
  {
    if |models| >= 2 {
      if models[0].id == models[1].id {
        var rest := [models[0]] + models[2..];
        assert Ascending(rest) by {
          assert forall i :: 0 < i < |rest| ==> rest[i] == models[i + 1];
        }
        DedupKeepsFirst(rest, id);
        assert rest[1..] == models[2..] && models[1..][1..] == models[2..];
      } else {
        LexLessIsStrictOrder(models[0].id, models[1].id);
        DedupKeepsFirst(models[1..], id);
        var r := DedupById(models[1..]);
        assert ([models[0]] + r)[1..] == r;
      }
    }
  }

  /** The listing is strictly ascending by id and holds, for every id, the first model found with it. */
  lemma {:induction false} ListingKeepsFirst(models: seq<ModelInfo>, id: string)
    ensures StrictlyAscending(Listing(models)) && |Listing(models)| <= |models|
    ensures FirstWithId(Listing(models), id) == FirstWithId(models, id)
  {
    SortIsStable(models, id);
    DedupKeepsFirst(SortById(models), id);
  }

  /** Any input yields a strictly id-ascending list of at most 256 models, and neither a header nor
      the end of the input ever completes an entry. */
  lemma {:induction false} CatalogIsCapped(stdout: string, read: Reader)
    requires Grammatical(read)
    ensures StrictlyAscending(Listing(Found(stdout, read)))
    ensures |Listing(Found(stdout, read))| <= 256
    ensures Found(stdout, read) == Run(START, Lines(stdout), read).out
  {
    RunTracks(START, Lines(stdout), read);
    OpenObjectIsNotFlushed(Run(START, Lines(stdout), read), read);
    ListingKeepsFirst(Found(stdout, read), "");
  }

  // ---------------------------------------------------------------------------
  // The round trip
  // ---------------------------------------------------------------------------

  function StripCrs(lines: seq<string>): (r: seq<string>)
    ensures |r| == |lines| && forall i :: 0 <= i < |lines| ==> r[i] == StripCr(lines[i])
  {
    seq(|lines|, i requires 0 <= i < |lines| => StripCr(lines[i]))
  }

  /** One model as the CLI prints it: a header line and a JSON object, laid out in any way, and what ends both. */
  datatype Entry = Entry(id: string, blank: string, members: Members, end: string) {
    function ObjectText(): string {
      ValueText(Object(blank, members))
    }

    /** The lines of the object as the parser sees them. */
    function ObjectLines(): (lines: seq<string>)
      ensures |lines| == |Split(ObjectText(), '\n')|
    {
      StripCrs(Split(ObjectText(), '\n'))
    }
  }

  /** The keys of the object's `variants` map, none when there is no such map. */
  function VariantKeys(members: Members): seq<string>
    requires AreMembers(members)
  {
    match LastValue(members, "variants")
    case Some(Object(blank, variants)) => LastValueIsValue(members, "variants"); Keys(variants)
    case _ => []
  }

  /** The reader takes the lines of the object and returns the keys of its `variants`, in any order. */
  ghost predicate ReadsVariants(read: Reader, e: Entry)
    requires AreMembers(e.members)
  {
    read(Join(e.ObjectLines())).Some?
    && forall key :: key in read(Join(e.ObjectLines())).value <==> key in VariantKeys(e.members)
  }

  ghost predicate Printable(e: Entry, read: Reader) {
    IsModelId(e.id) && e.end in ["\n", "\r\n"]
    && IsBlank(e.blank) && AreMembers(e.members)
    && TotalBytes(e.ObjectLines()) <= 65_536
    && ReadsVariants(read, e)
  }

  ghost predicate AllPrintable(entries: seq<Entry>, read: Reader) {
    forall i :: 0 <= i < |entries| ==> Printable(entries[i], read)
  }

  function Print(entries: seq<Entry>): string {
    if entries == [] then ""
    else entries[0].id + entries[0].end + (entries[0].ObjectText() + entries[0].end + Print(entries[1..]))
  }

  /** The model an entry stands for: its id and the ladder of its `variants`. */
  ghost function ModelOf(e: Entry): ModelInfo
    requires AreMembers(e.members)
  {
    ModelInfo(e.id, Ladder(VariantKeys(e.members)))
  }

  predicate AreObjects(entries: seq<Entry>) {
    forall i :: 0 <= i < |entries| ==> AreMembers(entries[i].members)
  }

  ghost function ModelsOf(entries: seq<Entry>): seq<ModelInfo>
    requires AreObjects(entries)
  {
    if entries == [] then [] else [ModelOf(entries[0])] + ModelsOf(entries[1..])
  }

  // A ladder is a matter of which keys there are.
  lemma {:induction false} LadderOfSameKeys(a: seq<string>, b: seq<string>)
    requires forall key :: key in a <==> key in b
    ensures Ladder(a) == Ladder(b)
  {
    forall e: Effort
      ensures Offers(a, e) == Offers(b, e)
    {
      OffersKey(a, e);
      OffersKey(b, e);
    }
    assert (set e: Effort | Offers(a, e)) == (set e: Effort | Offers(b, e));
  }

  lemma {:induction false} OffersKey(keys: seq<string>, e: Effort)
    ensures Offers(keys, e) <==> exists key :: key in keys && EffortFromVariant(key) == Some(e)
  {
    if exists key :: key in keys && EffortFromVariant(key) == Some(e) {
      var key :| key in keys && EffortFromVariant(key) == Some(e);
      var i :| 0 <= i < |keys| && keys[i] == key;
    }
  }

  // Headers

  // Trimming takes away neither quotes nor slashes.
  lemma {:induction false} TrimStartKeepsInk(s: string, c: char)
    requires !IsSpace(c)
    ensures c in TrimStart(s) <==> c in s
  {
    if s != "" && IsSpace(s[0]) {
      TrimStartKeepsInk(s[1..], c);
      assert s == [s[0]] + s[1..];
    }
  }

  lemma {:induction false} TrimEndKeepsInk(s: string, c: char)
    requires !IsSpace(c)
    ensures c in TrimEnd(s) <==> c in s
  {
    if s != "" && IsSpace(s[|s| - 1]) {
      TrimEndKeepsInk(s[..|s| - 1], c);
      assert s == s[..|s| - 1] + [s[|s| - 1]];
    }
  }

  lemma {:induction false} TrimKeepsInk(s: string, c: char)
    requires !IsSpace(c)
    ensures c in Trim(s) <==> c in s
  {
    TrimStartKeepsInk(s, c);
    TrimEndKeepsInk(TrimStart(s), c);
  }

  lemma {:induction false} HeaderHasBareSlash(line: string)
    requires IsModelHeader(line)
    ensures '/' in line && '"' !in line
  {
    var t := Trim(line);
    SplitOnceShrinks(t, '/');
    var (provider, model) := SplitOnce(t, '/').value;
    assert t == provider + ['/'] + model;
    assert t[|provider|] == '/';
    TrimKeepsInk(line, '/');
    TrimKeepsInk(line, '"');
  }

  lemma {:induction false} NoQuoteStaysOutside(d: int, text: string)
    requires '"' !in text && ScanText(Outside(d), text).Some?
    ensures !ScanText(Outside(d), text).value.inString
    decreases |text|
  {
    if text != "" {
      NoQuoteStaysOutside(ScanChar(Outside(d), text[0]).value.depth, text[1..]);
    }
  }

  lemma {:induction false} NewlineEndsOutside(s: Scan, text: string)
    requires ScanText(s, text + "\n").Some?
    ensures ScanText(s, text + "\n") == Some(Outside(ScanText(s, text + "\n").value.depth))
  {
    ScanAppend(s, text, "\n");
    var s' := ScanText(s, text).value;
    assert "\n"[1..] == "";
    assert ScanText(s', "\n") == Some(Outside(s'.depth));
  }

  // Where a line starts the scan stands outside any string.
  lemma {:induction false} LineStartsOutside(text: string, before: string)
    requires Level(text, 0) && before <= text && (before == "" || before[|before| - 1] == '\n')
    ensures var s := ScanText(Outside(0), before); s.Some? && s.value == Outside(s.value.depth) && s.value.depth >= 0
  {
    hide ScanText, SlashQuoted;
    assert text[..|before|] == before;
    assert Above(Outside(0), text, |before|, 0);
    if before == "" {
      NothingScanned(Outside(0));
    } else {
      assert before == before[..|before| - 1] + "\n";
      NewlineEndsOutside(Outside(0), before[..|before| - 1]);
    }
  }

  lemma {:induction false} NothingScanned(s: Scan)
    ensures ScanText(s, "") == Some(s)
  {
  }

  // A line of a level text with a slash also has the quote that opens the string around it.
  lemma {:induction false} SlashLineHasQuote(text: string, before: string, line: string, after: string)
    requires Level(text, 0) && text == before + (line + after)
    requires before == "" || (before != "" && before[|before| - 1] == '\n')
    requires '/' in line
    ensures '"' in line
  {
    hide ScanText, Above;
    var j :| 0 <= j < |line| && line[j] == '/';
    LineStartsOutside(text, before);
    assert text[|before| + j] == '/';
    assert SlashQuoted(Outside(0), text, |before| + j);
    assert text[..|before| + j] == before + line[..j];
    ScanAppend(Outside(0), before, line[..j]);
    if '"' !in line {
      NoQuoteStaysOutside(ScanText(Outside(0), before).value.depth, line[..j]);
    }
  }

  // Lines of an object

  lemma {:induction false} JoinSplit(s: string)
    ensures Join(Split(s, '\n')) == s
  {
    if s != "" {
      JoinSplit(s[1..]);
      var rest := Split(s[1..], '\n');
      if s[0] == '\n' {
        assert ([""] + rest)[1..] == rest;
      } else {
        var parts := [[s[0]] + rest[0]] + rest[1..];
        assert parts[1..] == rest[1..];
        assert Join(parts) == [s[0]] + Join(rest);
      }
    }
  }

  lemma {:induction false} JoinCut(lines: seq<string>, k: nat)
    requires 0 < k < |lines|
    ensures Join(lines) == Join(lines[..k]) + "\n" + Join(lines[k..])
  {
    if k == 1 {
      assert lines[..1] == [lines[0]];
    } else {
      JoinCut(lines[1..], k - 1);
      assert lines[1..][..k - 1] == lines[..k][1..] && lines[1..][k - 1..] == lines[k..];
      assert lines[..k][0] == lines[0];
    }
  }

  // The text of the first k lines, with the newline that ends them.
  function Head(lines: seq<string>, k: nat): string
    requires k <= |lines|
  {
    if k == 0 then "" else Join(lines[..k]) + "\n"
  }

  lemma {:induction false} LineInText(lines: seq<string>, k: nat) returns (after: string)
    requires k < |lines|
    ensures Join(lines) == Head(lines, k) + (lines[k] + after)
  {
    after := if k + 1 == |lines| then "" else "\n" + Join(lines[k + 1..]);
    if k > 0 {
      JoinCut(lines, k);
    }
    assert lines[k..][0] == lines[k] && lines[k..][1..] == lines[k + 1..];
    assert Join(lines[k..]) == lines[k] + after;
    if k == 0 {
      assert lines[0..] == lines;
    }
  }

  /** No line of a JSON object is a model header. */
  lemma {:induction false} ObjectLineIsNoHeader(e: Entry, k: nat)
    requires IsBlank(e.blank) && AreMembers(e.members) && k < |e.ObjectLines()|
    ensures !IsModelHeader(Trim(e.ObjectLines()[k]))
  {
    var lines := Split(e.ObjectText(), '\n');
    var line := lines[k];
    if IsModelHeader(Trim(StripCr(line))) {
      HeaderHasBareSlash(Trim(StripCr(line)));
      TrimKeepsInk(StripCr(line), '/');
      TrimKeepsInk(StripCr(line), '"');
      StripCrKeepsInk(line, '/');
      StripCrKeepsInk(line, '"');
      ObjectIsLevel(e.blank, e.members, 0);
      JoinSplit(e.ObjectText());
      var after := LineInText(lines, k);
      SlashLineHasQuote(e.ObjectText(), Head(lines, k), line, after);
    }
  }

  lemma {:induction false} StripCrKeepsInk(line: string, c: char)
    requires c != '\r'
    ensures c in StripCr(line) <==> c in line
  {
    if line != "" {
      assert line == line[..|line| - 1] + [line[|line| - 1]];
    }
  }

  // A carriage return at the end of a line opens and closes nothing.
  lemma {:induction false} StripCrKeepsDepth(line: string, depth: int)
    ensures LineDepth(StripCr(line), depth) == LineDepth(line, depth)
  {
    if line != "" && line[|line| - 1] == '\r' {
      var n := |line| - 1;
      ScanAppend(Outside(depth), line[..n], line[n..]);
      assert line == line[..n] + line[n..] && line[n..] == ['\r'] && line[n..][1..] == "";
    }
  }

  lemma {:induction false} StripCrsKeepDepth(lines: seq<string>, depth: int)
    ensures DepthOfLines(StripCrs(lines), depth) == DepthOfLines(lines, depth)
  {
    hide StripCr, LineDepth;
    if lines != [] {
      StripCrKeepsDepth(lines[0], depth);
      assert StripCrs(lines)[1..] == StripCrs(lines[1..]);
      var d := LineDepth(lines[0], depth);
      if d.Some? {
        StripCrsKeepDepth(lines[1..], d.value);
      }
    }
  }

  // The first lines of a text, but not all, are a proper beginning of it.
  lemma {:induction false} LinesBeforeLast(text: string, k: nat)
    requires text != "" && text[0] != '\n' && 0 < k < |Split(text, '\n')|
    ensures var n := |Join(Split(text, '\n')[..k])|;
            0 < n < |text| && text[..n] == Join(Split(text, '\n')[..k])
  {
    var lines := Split(text, '\n');
    JoinSplit(text);
    JoinCut(lines, k);
    assert lines[..k][0] == lines[0] != "";
    hide Split;
  }

  lemma {:induction false} DepthInside(text: string, n: nat)
    requires Deep(text, 0, 1) && 0 < n < |text|
    ensures var depth := DepthOf(ScanText(Outside(0), text[..n])); depth.Some? && depth.value >= 1
  {
    hide ScanText;
    assert Above(Outside(0), text, n, 1);
  }

  lemma {:induction false} DepthAtEnd(text: string)
    requires Level(text, 0)
    ensures DepthOf(ScanText(Outside(0), text)) == Some(0)
  {
    hide ScanText, Above, SlashQuoted;
  }

  lemma {:induction false} ObjectDepthOfLines(e: Entry, k: nat)
    requires 0 < k <= |e.ObjectLines()|
    ensures k <= |Split(e.ObjectText(), '\n')|
    ensures DepthOfLines(e.ObjectLines()[..k], 0)
         == DepthOf(ScanText(Outside(0), Join(Split(e.ObjectText(), '\n')[..k])))
  {
    var lines := Split(e.ObjectText(), '\n');
    hide ScanText, DepthOfLines, Join, Split, ObjectBody, StripCr;
    StripCrsKeepDepth(lines[..k], 0);
    assert e.ObjectLines()[..k] == StripCrs(lines[..k]);
    JoinedDepth(lines[..k], 0);
  }

  /** An object's lines return to depth zero at its last line and not before. */
  lemma {:induction false} ObjectDepth(e: Entry, k: nat)
    requires IsBlank(e.blank) && AreMembers(e.members) && 0 < k <= |e.ObjectLines()|
    ensures var depth := DepthOfLines(e.ObjectLines()[..k], 0);
            depth.Some? && (depth.value == 0 <==> k == |e.ObjectLines()|)
  {
    hide ScanText, DepthOfLines, DepthOf, Join, Split, ObjectBody, Level, Deep, StripCrs;
    var text := e.ObjectText();
    var lines := Split(text, '\n');
    ObjectIsLevel(e.blank, e.members, 0);
    ObjectDepthOfLines(e, k);
    if k == |lines| {
      JoinSplit(text);
      assert lines[..k] == lines;
      DepthAtEnd(text);
    } else {
      LinesBeforeLast(text, k);
      DepthInside(text, |Join(lines[..k])|);
    }
  }

  lemma {:induction false} BytesGrow(lines: seq<string>, k: nat)
    requires k <= |lines|
    ensures TotalBytes(lines[..k]) <= TotalBytes(lines)
    decreases |lines|
  {
    if k < |lines| {
      BytesGrow(lines[..|lines| - 1], k);
      assert lines[..|lines| - 1][..k] == lines[..k];
    } else {
      assert lines[..k] == lines;
    }
  }

  lemma {:induction false} BytesPush(lines: seq<string>, line: string)
    ensures TotalBytes(lines + [line]) == TotalBytes(lines) + Bytes(line)
  {
    assert (lines + [line])[..|lines|] == lines;
  }

  // The parser within an entry, after the first k lines of its object.
  function Within(out: seq<ModelInfo>, e: Entry, k: nat): Parser
    requires k < |e.ObjectLines()|
  {
    var lines := e.ObjectLines()[..k];
    var depth := DepthOfLines(lines, 0);
    Parser(out, Some(e.id), lines, TotalBytes(lines), if depth.Some? then depth.value else 0)
  }

  function Between(out: seq<ModelInfo>): Parser {
    Parser(out, None, [], 0, 0)
  }

  lemma {:induction false} StepWithin(out: seq<ModelInfo>, e: Entry, k: nat, read: Reader)
    requires Printable(e, read) && k < |e.ObjectLines()|
    ensures var p, line := Within(out, e, k), e.ObjectLines()[k];
            !IsModelHeader(Trim(line)) && !Oversized(p, line)
            && StepLine(p, line, read)
               == if k + 1 < |e.ObjectLines()| then Within(out, e, k + 1) else Between(out + [ModelOf(e)])
  {
    hide IsModelHeader, IsBlank, AreMembers, TotalBytes, LineDepth, DepthOfLines, Ladder, Bytes, Trim, Join, IsJson;
    var lines := e.ObjectLines();
    var p, line := Within(out, e, k), lines[k];
    ObjectLineIsNoHeader(e, k);
    assert lines[..k + 1] == lines[..k] + [line];
    BytesGrow(lines, k + 1);
    BytesPush(lines[..k], line);
    DepthOfLinesPush(lines[..k], line, 0);
    ObjectDepth(e, k + 1);
    if k > 0 {
      ObjectDepth(e, k);
    }
    if k + 1 == |lines| {
      assert lines[..k + 1] == lines;
      LadderOfSameKeys(read(Join(e.ObjectLines())).value, VariantKeys(e.members));
    }
  }

  // One line of the object, taken by the run.
  lemma {:induction false} RunOneLine(out: seq<ModelInfo>, e: Entry, k: nat, rest: seq<string>, read: Reader)
    requires Printable(e, read) && k < |e.ObjectLines()| && |out| < MAX_MODELS
    requires |out| + 1 == MAX_MODELS ==> rest == []
    ensures var lines := e.ObjectLines();
            Run(Within(out, e, k), lines[k..] + rest, read)
            == if k + 1 < |lines| then Run(Within(out, e, k + 1), lines[k + 1..] + rest, read)
               else Run(Between(out + [ModelOf(e)]), rest, read)
  {
    hide StepLine, Printable, IsModelHeader, IsModelId, ModelOf, TotalBytes, DepthOfLines, Trim, Oversized, IsJson, Ladder;
    var lines := e.ObjectLines();
    var todo := lines[k..] + rest;
    assert todo[0] == lines[k] && todo[1..] == lines[k + 1..] + rest;
    StepWithin(out, e, k, read);
    if k + 1 == |lines| {
      assert lines[k + 1..] + rest == rest;
    }
  }

  lemma {:induction false} RunWithin(out: seq<ModelInfo>, e: Entry, k: nat, rest: seq<string>, read: Reader)
    requires Printable(e, read) && k < |e.ObjectLines()| && |out| < MAX_MODELS
    requires |out| + 1 == MAX_MODELS ==> rest == []
    ensures Run(Within(out, e, k), e.ObjectLines()[k..] + rest, read)
         == Run(Between(out + [ModelOf(e)]), rest, read)
    decreases |e.ObjectLines()| - k
  {
    RunOneLine(out, e, k, rest, read);
    hide Run, Within, Between, ModelOf;
    if k + 1 < |e.ObjectLines()| {
      RunWithin(out, e, k + 1, rest, read);
    }
  }

  function EntryLines(entries: seq<Entry>): seq<string> {
    if entries == [] then []
    else [entries[0].id] + (entries[0].ObjectLines() + EntryLines(entries[1..]))
  }

  lemma {:induction false} NothingRead(out: seq<ModelInfo>, e: Entry)
    requires |e.ObjectLines()| > 0
    ensures Within(out, e, 0) == Parser(out, Some(e.id), [], 0, 0)
  {
    assert e.ObjectLines()[..0] == [];
  }

  // A header starts its entry, with nothing of the object read yet, and is no line to stop at.
  lemma {:induction false} IdStarts(p: Parser, id: string, read: Reader)
    requires IsModelId(id)
    ensures StepLine(p, id, read) == Parser(Flushed(p, read), Some(id), [], 0, 0) && !Stops(p, id, StepLine(p, id, read))
  {
    hide IsModelId, IsModelHeader, Trim, Flushed;
    IdIsHeader(id);
  }

  lemma {:induction false} FirstEntry(out: seq<ModelInfo>, entries: seq<Entry>, read: Reader)
    requires AllPrintable(entries, read) && entries != [] && |out| + |entries| <= MAX_MODELS
    ensures Printable(entries[0], read) && AllPrintable(entries[1..], read)
    ensures AreMembers(entries[0].members) && AreObjects(entries[1..])
    ensures ModelsOf(entries) == [ModelOf(entries[0])] + ModelsOf(entries[1..])
    ensures Run(Between(out), EntryLines(entries), read)
         == Run(Between(out + [ModelOf(entries[0])]), EntryLines(entries[1..]), read)
  {
    var e, rest := entries[0], EntryLines(entries[1..]);
    var lines := EntryLines(entries);
    assert lines[1..] == e.ObjectLines() + rest;
    assert e.ObjectLines()[0..] == e.ObjectLines() && e.ObjectLines()[..0] == [];
    IdStarts(Between(out), e.id, read);
    hide StepLine, Stops, Printable, ModelOf, Within, EntryLines;
    assert Parser(out, Some(e.id), [], 0, 0) == Within(out, e, 0) by {
      NothingRead(out, e);
    }
    RunWithin(out, e, 0, rest, read);
  }

  lemma {:induction false} RunNothing(out: seq<ModelInfo>, read: Reader)
    ensures Run(Between(out), EntryLines([]), read) == Between(out)
    ensures ModelsOf([]) == []
  {
  }

  lemma {:induction false} RunEntries(out: seq<ModelInfo>, entries: seq<Entry>, read: Reader)
    requires AllPrintable(entries, read) && |out| + |entries| <= MAX_MODELS
    ensures Run(Between(out), EntryLines(entries), read) == Between(out + ModelsOf(entries))
    decreases |entries|
  {
    hide *;
    if entries == [] {
      RunNothing(out, read);
      assert out + [] == out;
    } else {
      FirstEntry(out, entries, read);
      var m, rest := [ModelOf(entries[0])], entries[1..];
      RunEntries(out + m, rest, read);
      assert out + m + ModelsOf(rest) == out + (m + ModelsOf(rest));
    }
  }

  // Lines of the printed text

  lemma {:induction false} LinesOfLine(line: string, rest: string)
    requires '\n' !in line
    ensures Lines(line + "\n" + rest) == [StripCr(line)] + Lines(rest)
  {
    SplitOnceAt(line, '\n', rest);
    assert line + "\n" + rest == line + ['\n'] + rest;
  }

  // A line with either end.
  lemma {:induction false} LinesOfEnded(line: string, end: string, rest: string)
    requires '\n' !in line && end in ["\n", "\r\n"] && (line == "" || line[|line| - 1] != '\r')
    ensures Lines(line + end + rest) == [line] + Lines(rest)
  {
    var ended := if end == "\n" then line else line + "\r";
    LinesOfLine(ended, rest);
    assert line + end + rest == ended + "\n" + rest;
  }

  lemma {:induction false} LinesOfText(t: string, end: string, rest: string)
    requires t != "" && t[|t| - 1] !in "\r\n" && end in ["\n", "\r\n"]
    ensures Lines(t + end + rest) == StripCrs(Split(t, '\n')) + Lines(rest)
    decreases |t|
  {
    hide Lines, Split, StripCrs, StripCr;
    match SplitOnce(t, '\n')
    case None =>
      SplitOnceMisses(t, '\n');
      SplitOfOnePart(t, '\n');
      StripUnended(t);
      LinesOfEnded(t, end, rest);
    case Some((line, more)) =>
      SplitOnceShrinks(t, '\n');
      SplitAtSeparator(line, '\n', more);
      LinesOfText(more, end, rest);
      LinesOfLine(line, more + end + rest);
      assert t + end + rest == line + "\n" + (more + end + rest);
      StripFirst(line, Split(more, '\n'));
  }

  lemma {:induction false} StripUnended(line: string)
    requires line != "" && line[|line| - 1] != '\r'
    ensures StripCrs([line]) == [line]
  {
  }

  lemma {:induction false} StripFirst(line: string, more: seq<string>)
    ensures StripCrs([line] + more) == [StripCr(line)] + StripCrs(more)
  {
  }

  lemma {:induction false} HeaderIsOneLine(id: string)
    requires IsModelHeader(id) && Trim(id) == id
    ensures '\n' !in id && '\r' !in id
  {
    SplitOnceShrinks(id, '/');
  }

  lemma {:induction false} ObjectEndsInBrace(e: Entry)
    ensures e.ObjectText() != "" && e.ObjectText()[|e.ObjectText()| - 1] == '}'
  {
  }

  lemma {:induction false} LinesOfPrint(entries: seq<Entry>, read: Reader)
    requires AllPrintable(entries, read)
    ensures Lines(Print(entries)) == EntryLines(entries)
  {
    hide IsModelHeader, Trim, ValueText, AreMembers, IsBlank, TotalBytes, Lines, ReadsVariants;
    if entries != [] {
      var e, rest := entries[0], Print(entries[1..]);
      assert Printable(e, read);
      LinesOfPrint(entries[1..], read);
      IdIsHeader(e.id);
      HeaderIsOneLine(e.id);
      ObjectEndsInBrace(e);
      LinesOfText(e.ObjectText(), e.end, rest);
      LinesOfEnded(e.id, e.end, e.ObjectText() + e.end + rest);
    } else {
      NoLines();
    }
  }

  lemma {:induction false} NoLines()
    ensures Lines("") == []
  {
  }

  /** Parsing what was printed finds exactly the printed models, and lists the first of each id in order. */
  lemma {:induction false} CatalogRoundTrip(entries: seq<Entry>, read: Reader)
    requires AllPrintable(entries, read) && |entries| <= 256
    ensures Found(Print(entries), read) == ModelsOf(entries)
    ensures StrictlyAscending(Listing(Found(Print(entries), read)))
    ensures forall id :: FirstWithId(Listing(Found(Print(entries), read)), id)
                      == FirstWithId(ModelsOf(entries), id)
  {
    LinesOfPrint(entries, read);
    RunEntries([], entries, read);
    assert [] + ModelsOf(entries) == ModelsOf(entries);
    forall id
      ensures FirstWithId(Listing(ModelsOf(entries)), id) == FirstWithId(ModelsOf(entries), id)
    {
      ListingKeepsFirst(ModelsOf(entries), id);
    }
    ListingKeepsFirst(ModelsOf(entries), "");
  }

  // ---------------------------------------------------------------------------
  // Whatever came before
  // ---------------------------------------------------------------------------

  lemma {:induction false} LinesAppend(before: string, rest: string)
    requires before == "" || before[|before| - 1] == '\n'
    ensures Lines(before + rest) == Lines(before) + Lines(rest)
    decreases |before|
  {
    if before == "" {
      assert before + rest == rest;
    } else {
      match SplitOnce(before, '\n')
      case None =>
        SplitOnceMisses(before, '\n');
      case Some((line, more)) =>
        SplitOnceShrinks(before, '\n');
        LinesAppend(more, rest);
        assert before + rest == line + ['\n'] + (more + rest);
        SplitOnceAt(line, '\n', more + rest);
    }
  }

  // A run that has not reached the cap goes on from where it is.
  lemma {:induction false} RunAppend(p: Parser, a: seq<string>, b: seq<string>, read: Reader)
    requires |Run(p, a, read).out| < MAX_MODELS
    ensures Run(p, a + b, read) == Run(Run(p, a, read), b, read)
    decreases |a|
  {
    hide StepLine, IsModelHeader;
    if a == [] {
      assert a + b == b;
    } else {
      assert (a + b)[0] == a[0] && (a + b)[1..] == a[1..] + b;
      var p' := StepLine(p, a[0], read);
      if !Stops(p, a[0], p') {
        RunAppend(p', a[1..], b, read);
      }
    }
  }

  // A header starts afresh, whatever object was in flight.
  lemma {:induction false} HeaderStartsAfresh(p: Parser, entries: seq<Entry>, read: Reader)
    requires Tracks(p) && Grammatical(read) && AllPrintable(entries, read) && entries != []
    ensures Run(p, EntryLines(entries), read) == Run(Between(p.out), EntryLines(entries), read)
  {
    hide StepLine, Stops, Tracks, IsModelId, ReadsVariants, TotalBytes, AreMembers;
    var e := entries[0];
    assert Printable(e, read);
    hide Printable, AllPrintable;
    OpenObjectIsNotFlushed(p, read);
    assert EntryLines(entries)[0] == e.id;
    IdStarts(p, e.id, read);
    IdStarts(Between(p.out), e.id, read);
  }

  /** Broken objects and stray lines are isolated: whatever text comes first, the entries after it are found
      as if it were not there, and what was found in it is kept. */
  lemma {:induction false} BrokenEntriesAreIsolated(before: string, entries: seq<Entry>, read: Reader)
    requires Grammatical(read) && AllPrintable(entries, read) && entries != []
    requires before == "" || before[|before| - 1] == '\n'
    requires |Found(before, read)| + |entries| <= 256
    ensures Found(before + Print(entries), read) == Found(before, read) + ModelsOf(entries)
  {
    var p := Run(START, Lines(before), read);
    RunTracks(START, Lines(before), read);
    OpenObjectIsNotFlushed(p, read);
    LinesAppend(before, Print(entries));
    LinesOfPrint(entries, read);
    hide Run, Lines, Print, EntryLines, AllPrintable, Grammatical, Tracks, ModelsOf;
    RunAppend(START, Lines(before), EntryLines(entries), read);
    HeaderStartsAfresh(p, entries, read);
    RunEntries(p.out, entries, read);
  }

  // ---------------------------------------------------------------------------
  // Objects that are too large
  // ---------------------------------------------------------------------------

  /** How many bytes a text takes: one for each character of ASCII, two below U+0800, three below U+10000, else four. */
  lemma {:induction false} BytesAreCounted(s: string, c: char)
    ensures Bytes("") == 0
    ensures Bytes([c] + s) == Bytes(s) + if c as int <= 0x7F then 1 else if c as int <= 0x7FF then 2 else if c as int <= 0xFFFF then 3 else 4
  {
    assert ([c] + s)[1..] == s;
  }

  // A line of an object not yet closed, with room for it.
  lemma {:induction false} StepOpen(out: seq<ModelInfo>, e: Entry, k: nat, read: Reader)
    requires IsBlank(e.blank) && AreMembers(e.members) && k + 1 < |e.ObjectLines()|
    requires TotalBytes(e.ObjectLines()[..k + 1]) <= 65_536
    ensures var p, line := Within(out, e, k), e.ObjectLines()[k];
            StepLine(p, line, read) == Within(out, e, k + 1) && !Oversized(p, line) && !IsModelHeader(Trim(line))
  {
    hide IsModelHeader, IsBlank, AreMembers, TotalBytes, LineDepth, DepthOfLines, Bytes, Trim, Join, IsJson;
    var lines := e.ObjectLines();
    ObjectLineIsNoHeader(e, k);
    assert lines[..k + 1] == lines[..k] + [lines[k]];
    BytesPush(lines[..k], lines[k]);
    DepthOfLinesPush(lines[..k], lines[k], 0);
    ObjectDepth(e, k + 1);
    if k > 0 {
      ObjectDepth(e, k);
    }
  }

  // The line that makes an object too large.
  lemma {:induction false} StepOver(out: seq<ModelInfo>, e: Entry, k: nat, read: Reader)
    requires IsBlank(e.blank) && AreMembers(e.members) && k < |e.ObjectLines()|
    requires TotalBytes(e.ObjectLines()[..k + 1]) > 65_536
    ensures var p, line := Within(out, e, k), e.ObjectLines()[k];
            StepLine(p, line, read) == Between(out) && Oversized(p, line)
  {
    hide IsModelHeader, IsBlank, AreMembers, TotalBytes, LineDepth, DepthOfLines, Bytes, Trim;
    var lines := e.ObjectLines();
    ObjectLineIsNoHeader(e, k);
    assert lines[..k + 1] == lines[..k] + [lines[k]];
    BytesPush(lines[..k], lines[k]);
  }

  // Lines between entries are passed over.
  lemma {:induction false} PassOver(out: seq<ModelInfo>, e: Entry, k: nat, rest: seq<string>, read: Reader)
    requires IsBlank(e.blank) && AreMembers(e.members) && k <= |e.ObjectLines()| && |out| < MAX_MODELS
    ensures Run(Between(out), e.ObjectLines()[k..] + rest, read) == Run(Between(out), rest, read)
    decreases |e.ObjectLines()| - k
  {
    hide IsModelHeader, IsBlank, AreMembers, Trim;
    var lines := e.ObjectLines();
    if k == |lines| {
      assert lines[k..] + rest == rest;
    } else {
      var todo := lines[k..] + rest;
      assert todo[0] == lines[k] && todo[1..] == lines[k + 1..] + rest;
      ObjectLineIsNoHeader(e, k);
      PassOver(out, e, k + 1, rest, read);
    }
  }

  lemma {:induction false} DropFrom(out: seq<ModelInfo>, e: Entry, k: nat, rest: seq<string>, read: Reader)
    requires IsBlank(e.blank) && AreMembers(e.members) && k < |e.ObjectLines()| && |out| < MAX_MODELS
    requires TotalBytes(e.ObjectLines()[..k]) <= 65_536 < TotalBytes(e.ObjectLines())
    ensures Run(Within(out, e, k), e.ObjectLines()[k..] + rest, read) == Run(Between(out), rest, read)
    decreases |e.ObjectLines()| - k
  {
    hide IsModelHeader, IsBlank, AreMembers, Trim, TotalBytes, StepLine, Oversized;
    var lines := e.ObjectLines();
    var todo := lines[k..] + rest;
    assert todo[0] == lines[k] && todo[1..] == lines[k + 1..] + rest;
    if TotalBytes(lines[..k + 1]) > 65_536 {
      StepOver(out, e, k, read);
      PassOver(out, e, k + 1, rest, read);
    } else {
      assert k + 1 < |lines| by {
        assert lines[..|lines|] == lines;
      }
      StepOpen(out, e, k, read);
      DropFrom(out, e, k + 1, rest, read);
    }
  }

  /** An object of more than 65536 bytes is passed over with its header, whatever is in it, and parsing goes on after it. */
  lemma {:induction false} OversizedIsDropped(out: seq<ModelInfo>, e: Entry, rest: seq<string>, read: Reader)
    requires IsModelId(e.id) && IsBlank(e.blank) && AreMembers(e.members) && |out| < 256
    requires TotalBytes(e.ObjectLines()) > 65_536
    ensures Run(Between(out), [e.id] + (e.ObjectLines() + rest), read) == Run(Between(out), rest, read)
  {
    hide IsModelId, IsBlank, AreMembers, TotalBytes;
    var lines := [e.id] + (e.ObjectLines() + rest);
    assert lines[1..] == e.ObjectLines() + rest && e.ObjectLines()[0..] == e.ObjectLines();
    IdStarts(Between(out), e.id, read);
    hide StepLine, Stops, Flushed;
    NoBytes();
    assert e.ObjectLines() != [] && e.ObjectLines()[..0] == [];
    NothingRead(out, e);
    hide Within;
    DropFrom(out, e, 0, rest, read);
  }

  lemma {:induction false} NoBytes()
    ensures TotalBytes([]) == 0
  {
  }
}

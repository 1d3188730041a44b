/**
 The text of the files a MapReduce job writes and reads back (src/mr/worker.go): one line
 "key value" per record, split again by strings.FieldsFunc and strings.Fields.
 */
module MrText {
  import opened Basics
  import opened MrRecords

  /** unicode.IsSpace */
  predicate IsSpace(c: char) {
    || '\t' <= c <= '\r' || c == ' ' || c == '\U{85}' || c == '\U{A0}' || c == '\U{1680}'
    || '\U{2000}' <= c <= '\U{200A}' || c == '\U{2028}' || c == '\U{2029}' || c == '\U{202F}'
    || c == '\U{205F}' || c == '\U{3000}'
  }

  predicate IsLineEnd(c: char) {
    c == '\n' || c == '\r'
  }

  /** A word that survives the file: not empty and free of white space. */
  predicate Clean(s: string) {
    s != "" && Without(s, IsSpace)
  }

  predicate CleanPair(kv: KeyValue) {
    Clean(kv.key) && Clean(kv.value)
  }

  predicate AllClean(kvs: seq<KeyValue>) {
    forall i | 0 <= i < |kvs| :: CleanPair(kvs[i])
  }

  predicate Without(s: string, sep: char -> bool) {
    forall i | 0 <= i < |s| :: !sep(s[i])
  }

  // ---------------------------------------------------------------- splitting

  function RunLength(s: string, sep: char -> bool): (n: nat)
    ensures n <= |s|
  {
    if s == "" || sep(s[0]) then 0 else 1 + RunLength(s[1..], sep)
  }

  /** strings.FieldsFunc: the maximal runs of characters that are not separators. */
  function FieldsFunc(s: string, sep: char -> bool): seq<string>
    decreases |s|
  {
    if s == "" then []
    else if sep(s[0]) then FieldsFunc(s[1..], sep)
    else
      var n := RunLength(s, sep);
      [s[..n]] + FieldsFunc(s[n..], sep)
  }

  /** strings.Fields */
  function Fields(s: string): seq<string> {
    FieldsFunc(s, IsSpace)
  }

  lemma {:induction false} RunEnds(a: string, t: string, sep: char -> bool)
    requires Without(a, sep) && (t == "" || sep(t[0]))
    ensures RunLength(a + t, sep) == |a|
  {
    if a == "" {
      assert a + t == t;
    } else {
      assert (a + t)[0] == a[0] && (a + t)[1..] == a[1..] + t;
      RunEnds(a[1..], t, sep);
    }
  }

  /** A word, one separator and the rest split into the word and the fields of the rest. */
  lemma {:induction false} SplitFirst(a: string, c: char, rest: string, sep: char -> bool)
    requires a != "" && Without(a, sep) && sep(c)
    ensures FieldsFunc(a + [c] + rest, sep) == [a] + FieldsFunc(rest, sep)
  {
    var t := [c] + rest;
    var s := a + [c] + rest;
    assert s == a + t;
    RunEnds(a, t, sep);
    assert s[0] == a[0] && s[..|a|] == a && s[|a|..] == t && t[1..] == rest;
  }

  lemma {:induction false} SplitLast(a: string, sep: char -> bool)
    requires a != "" && Without(a, sep)
    ensures FieldsFunc(a, sep) == [a]
  {
    RunEnds(a, "", sep);
    assert a + "" == a && a[..|a|] == a && a[|a|..] == "";
  }

  lemma {:induction false} RunIsWithout(s: string, sep: char -> bool)
    ensures Without(s[..RunLength(s, sep)], sep)
    ensures s != "" && !sep(s[0]) ==> RunLength(s, sep) > 0
  {
    if s != "" && !sep(s[0]) {
      RunIsWithout(s[1..], sep);
      var n := RunLength(s[1..], sep);
      assert s[..n + 1] == [s[0]] + s[1..][..n];
    }
  }

  lemma {:induction false} FieldsAreWords(s: string, sep: char -> bool, i: nat)
    requires i < |FieldsFunc(s, sep)|
    ensures FieldsFunc(s, sep)[i] != "" && Without(FieldsFunc(s, sep)[i], sep)
    decreases |s|
  {
    if sep(s[0]) {
      FieldsAreWords(s[1..], sep, i);
    } else {
      RunIsWithout(s, sep);
      if i > 0 {
        FieldsAreWords(s[RunLength(s, sep)..], sep, i - 1);
      }
    }
  }

  // ---------------------------------------------------------------- writing and reading back

  function Line(kv: KeyValue): string {
    kv.key + " " + kv.value + "\n"
  }

  function Text(kvs: seq<KeyValue>): string {
    if kvs == [] then "" else Line(kvs[0]) + Text(kvs[1..])
  }

  lemma {:induction false} TextAppend(a: seq<KeyValue>, kv: KeyValue)
    ensures Text(a + [kv]) == Text(a) + Line(kv)
  {
    if a == [] {
      assert a + [kv] == [kv];
      assert Text([kv]) == Line(kv) + Text([]);
    } else {
      assert (a + [kv])[1..] == a[1..] + [kv];
      TextAppend(a[1..], kv);
    }
  }

  /** The first two fields of a line; with fewer the worker's index expression fails and the process stops. */
  function ParseLine(line: string): Option<KeyValue> {
    var f := Fields(line);
    if |f| < 2 then None else Some(KeyValue(f[0], f[1]))
  }

  /** A parse after acc was read. */
  function Continue(acc: seq<KeyValue>, r: Option<seq<KeyValue>>): Option<seq<KeyValue>> {
    match r
    case None => None
    case Some(rest) => Some(acc + rest)
  }

  function ParseLines(lines: seq<string>): Option<seq<KeyValue>> {
    if lines == [] then Some([])
    else
      match ParseLine(lines[0])
      case None => None
      case Some(kv) =>
        Continue([kv], ParseLines(lines[1..]))
  }

  function Parse(text: string): Option<seq<KeyValue>> {
    ParseLines(FieldsFunc(text, IsLineEnd))
  }

  lemma {:induction false} LineParses(kv: KeyValue)
    requires CleanPair(kv)
    ensures ParseLine(kv.key + " " + kv.value) == Some(kv)
  {
    SplitFirst(kv.key, ' ', kv.value, IsSpace);
    SplitLast(kv.value, IsSpace);
  }

  lemma {:induction false} ParsedLineClean(line: string)
    ensures ParseLine(line).Some? ==> CleanPair(ParseLine(line).value)
  {
    if |Fields(line)| >= 2 {
      FieldsAreWords(line, IsSpace, 0);
      FieldsAreWords(line, IsSpace, 1);
    }
  }

  lemma {:induction false} ParsedClean(lines: seq<string>)
    ensures ParseLines(lines).Some? ==> AllClean(ParseLines(lines).value)
  {
    if lines != [] {
      ParsedLineClean(lines[0]);
      ParsedClean(lines[1..]);
    }
  }

  lemma {:induction false} WordHasNoLineEnd(s: string)
    requires Without(s, IsSpace)
    ensures Without(s, IsLineEnd)
  {
    forall i | 0 <= i < |s| ensures !IsLineEnd(s[i]) {
      assert !IsSpace(s[i]);
    }
  }

  lemma {:induction false} LineSplits(kv: KeyValue, rest: string)
    requires Without(kv.key, IsLineEnd) && Without(kv.value, IsLineEnd)
    ensures FieldsFunc(Line(kv) + rest, IsLineEnd) == [kv.key + " " + kv.value] + FieldsFunc(rest, IsLineEnd)
  {
    var a := kv.key + " " + kv.value;
    SplitFirst(a, '\n', rest, IsLineEnd);
    assert Line(kv) + rest == a + ['\n'] + rest;
  }

  /** The first line of a file gives its pair, and the rest is parsed as before. */
  lemma {:induction false} ParseFirst(kv: KeyValue, rest: string)
    requires CleanPair(kv)
    ensures Parse(Line(kv) + rest) == Continue([kv], Parse(rest))
  {
    WordHasNoLineEnd(kv.key);
    WordHasNoLineEnd(kv.value);
    LineSplits(kv, rest);
    LineParses(kv);
    var line, lines := kv.key + " " + kv.value, FieldsFunc(rest, IsLineEnd);
    assert ([line] + lines)[0] == line && ([line] + lines)[1..] == lines;
  }

  lemma {:induction false} CleanRoundTrip(kvs: seq<KeyValue>)
    requires AllClean(kvs)
    ensures Parse(Text(kvs)) == Some(kvs)
  {
    if kvs != [] {
      assert CleanPair(kvs[0]);
      ParseFirst(kvs[0], Text(kvs[1..]));
      CleanRoundTrip(kvs[1..]);
      assert kvs == [kvs[0]] + kvs[1..];
    }
  }

  /** A file gives back the pairs that were written to it exactly when every key and every value is a nonempty word
      without white space. */
  lemma {:induction false} RoundTripIffClean(kvs: seq<KeyValue>)
    ensures Parse(Text(kvs)) == Some(kvs) <==> AllClean(kvs)
  {
    if AllClean(kvs) {
      CleanRoundTrip(kvs);
    } else {
      ParsedClean(FieldsFunc(Text(kvs), IsLineEnd));
    }
  }

  lemma {:induction false} OneLine(kv: KeyValue)
    requires Without(kv.key, IsLineEnd) && Without(kv.value, IsLineEnd)
    ensures Parse(Text([kv])) ==
              match ParseLine(kv.key + " " + kv.value) { case None => None case Some(r) => Some([r]) }
  {
    LineSplits(kv, "");
    assert [kv][1..] == [] && Text([kv]) == Line(kv) + "";
    assert FieldsFunc("", IsLineEnd) == [];
    var line := kv.key + " " + kv.value;
    assert FieldsFunc(Text([kv]), IsLineEnd) == [line];
    assert [line][1..] == [] && ParseLines([]) == Some([]);
    assert forall r: KeyValue :: [r] + [] == [r];
  }

  /** What is lost otherwise: a key of two words comes back as a different pair, and its value is gone. */
  lemma {:induction false} BlankKeyIsGarbled(a: string, b: string, value: string)
    requires Clean(a) && Clean(b) && Clean(value)
    ensures Parse(Text([KeyValue(a + " " + b, value)])) == Some([KeyValue(a, b)])
  {
    WordHasNoLineEnd(a);
    WordHasNoLineEnd(b);
    WordHasNoLineEnd(value);
    OneLine(KeyValue(a + " " + b, value));
    SplitFirst(a, ' ', b + " " + value, IsSpace);
    SplitFirst(b, ' ', value, IsSpace);
    assert a + " " + b + " " + value == a + [' '] + (b + " " + value);
  }

  /** An empty value stops the worker that reads it. */
  lemma {:induction false} EmptyValueStopsReader(key: string)
    requires Clean(key)
    ensures Parse(Text([KeyValue(key, "")])) == None
  {
    WordHasNoLineEnd(key);
    OneLine(KeyValue(key, ""));
    SplitFirst(key, ' ', "", IsSpace);
    assert key + " " + "" == key + [' '] + "";
  }

  // ---------------------------------------------------------------- which files can be read at all

  /** A separator splits a text in two, whatever is on either side. */
  lemma {:induction false} SplitAt(a: string, c: char, rest: string, sep: char -> bool)
    requires sep(c)
    ensures FieldsFunc(a + [c] + rest, sep) == FieldsFunc(a, sep) + FieldsFunc(rest, sep)
    decreases |a|
  {
    var s := a + [c] + rest;
    if a == "" {
      assert s[0] == c && s[1..] == rest;
    } else if sep(a[0]) {
      assert s[0] == a[0] && s[1..] == a[1..] + [c] + rest;
      SplitAt(a[1..], c, rest, sep);
    } else {
      var n := RunLength(a, sep);
      RunIsWithout(a, sep);
      RunStops(a, sep);
      RunEnds(a[..n], a[n..] + [c] + rest, sep);
      assert s == a[..n] + (a[n..] + [c] + rest);
      assert s[0] == a[0] && s[..n] == a[..n] && s[n..] == a[n..] + [c] + rest;
      SplitAt(a[n..], c, rest, sep);
    }
  }

  lemma {:induction false} RunStops(s: string, sep: char -> bool)
    ensures var n := RunLength(s, sep); n < |s| ==> sep(s[n])
  {
    if s != "" && !sep(s[0]) {
      RunStops(s[1..], sep);
    }
  }

  lemma {:induction false} ParseSplit(a: seq<string>, b: seq<string>)
    ensures ParseLines(a + b).Some? <==> ParseLines(a).Some? && ParseLines(b).Some?
  {
    if a == [] {
      assert a + b == b;
    } else {
      assert (a + b)[0] == a[0] && (a + b)[1..] == a[1..] + b;
      ParseSplit(a[1..], b);
    }
  }

  /** Every line that the pair leaves in a file has at least two fields. */
  predicate Readable(kv: KeyValue) {
    Parse(kv.key + " " + kv.value).Some?
  }

  /** A reader gets through a file exactly when it gets through each of its pairs, in whatever order they stand. */
  lemma {:induction false} ReadsIffReadable(kvs: seq<KeyValue>)
    ensures Parse(Text(kvs)).Some? <==> forall kv | kv in kvs :: Readable(kv)
  {
    if kvs != [] {
      var line, rest := kvs[0].key + " " + kvs[0].value, Text(kvs[1..]);
      ReadsIffReadable(kvs[1..]);
      SplitAt(line, '\n', rest, IsLineEnd);
      assert Text(kvs) == line + ['\n'] + rest;
      ParseSplit(FieldsFunc(line, IsLineEnd), FieldsFunc(rest, IsLineEnd));
      assert Parse(Text(kvs)).Some? <==> Readable(kvs[0]) && Parse(rest).Some?;
      assert forall kv :: kv in kvs <==> kv == kvs[0] || kv in kvs[1..];
    }
  }

  /** Clean pairs are readable; the ones in between are read as something else. */
  lemma {:induction false} CleanIsReadable(kv: KeyValue)
    requires CleanPair(kv)
    ensures Readable(kv)
  {
    CleanRoundTrip([kv]);
    ReadsIffReadable([kv]);
    assert kv in [kv];
  }

  /** The loop that saves a slice or an output. */
  method WriteRecords(kvs: seq<KeyValue>) returns (text: string)
    ensures text == Text(kvs)
  {
    text := "";
    for i := 0 to |kvs|
      invariant text == Text(kvs[..i])
    {
      assert kvs[..i + 1] == kvs[..i] + [kvs[i]];
      TextAppend(kvs[..i], kvs[i]);
      text := text + (kvs[i].key + " " + kvs[i].value + "\n");
    }
    assert kvs[..|kvs|] == kvs;
  }

  /** The loop that reads one intermediate file; None when a line has fewer than two fields. */
  method ReadRecords(content: string) returns (kvs: Option<seq<KeyValue>>)
    ensures kvs == Parse(content)
  {
    var lines := FieldsFunc(content, IsLineEnd);
    var acc := [];
    assert lines[0..] == lines;
    assert forall r: seq<KeyValue> :: [] + r == r;
    for i := 0 to |lines|
      invariant Parse(content) == Continue(acc, ParseLines(lines[i..]))
    {
      assert lines[i..][0] == lines[i] && lines[i..][1..] == lines[i + 1..];
      var slice := Fields(lines[i]);
      if |slice| < 2 {
        return None;
      }
      var kv := KeyValue(slice[0], slice[1]);
      assert forall rest :: acc + ([kv] + rest) == acc + [kv] + rest;
      acc := acc + [kv];
    }
    assert lines[|lines|..] == [] && acc + [] == acc;
    kvs := Some(acc);
  }
}

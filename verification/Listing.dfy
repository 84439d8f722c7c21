/**
 The printed list read back: each field is found under its label, and each record on its line.
 */
module Listing {
  import opened Wrappers
  import opened Registry
  import Numbering

  /* ----- Reading ----- */

  // Length of the leading run of characters other than c.
  function RunWithout(s: string, c: char): (k: nat)
    ensures k <= |s|
  {
    if s == "" || s[0] == c then 0 else 1 + RunWithout(s[1..], c)
  }

  function SkipSpaces(s: string): (r: string)
    ensures |r| <= |s|
  {
    if s != "" && s[0] == ' ' then SkipSpaces(s[1..]) else s
  }

  // The words that follow these labels, one after another.
  function ReadFields(s: string, labels: seq<string>): Option<seq<string>>
    decreases |labels|
  {
    if labels == [] then Some([])
    else if !(labels[0] <= s) then None
    else
      var t := s[|labels[0]|..];
      var k := RunWithout(t, ' ');
      match ReadFields(SkipSpaces(t[k..]), labels[1..])
      case None => None
      case Some(words) => Some([t[..k]] + words)
  }

  function ReadInt(word: string): Option<int> {
    if word != "" && word[0] == '-' && Numbering.AllDigits(word[1..]) then
      var v: int := Numbering.Value(word[1..]);
      Some(-v)
    else if word != "" && Numbering.AllDigits(word) then Some(Numbering.Value(word))
    else None
  }

  const LABELS: seq<string> := ["source port: ", "dest port: ", "dest addr: ", "duration: ", "pid: ", "client: "]

  function ReadElement(line: string): Option<Data> {
    match ReadFields(line, LABELS)
    case None => None
    case Some(w) =>
      if |w| != 6 then None else
        var port, destPort, duration, pid, client :=
          ReadInt(w[0]), ReadInt(w[1]), ReadInt(w[3]), ReadInt(w[4]), ReadInt(w[5]);
        if port.Some? && destPort.Some? && duration.Some? && pid.Some? && client.Some? && client.value >= 0
        then Some(Data(port.value, destPort.value, w[2], duration.value, pid.value, client.value))
        else None
  }

  // The records of a listing, one for each line.
  function ReadList(text: string): (rs: seq<Option<Data>>)
    decreases |text|
  {
    if text == "" then [] else
      var k := RunWithout(text, '\n');
      [ReadElement(text[..k])] + if k == |text| then [] else ReadList(text[k+1..])
  }

  /* ----- Fields in general ----- */

  predicate Readable(f: Field) {
    f.name != "" && f.name[0] != ' ' && ' ' !in f.word
  }

  function Labels(fs: seq<Field>): (r: seq<string>)
    ensures |r| == |fs|
  {
    seq(|fs|, i requires 0 <= i < |fs| => fs[i].name)
  }

  function Words(fs: seq<Field>): (r: seq<string>)
    ensures |r| == |fs|
  {
    seq(|fs|, i requires 0 <= i < |fs| => fs[i].word)
  }

  function Spaces(m: nat): (s: string)
    ensures |s| == m
  {
    seq(m, i => ' ')
  }

  lemma {:induction false} RunStops(word: string, rest: string, c: char)
    requires c !in word && (rest == "" || rest[0] == c)
    ensures RunWithout(word + rest, c) == |word|
  {
    if word == "" {
      assert word + rest == rest;
    } else {
      assert (word + rest)[1..] == word[1..] + rest;
      RunStops(word[1..], rest, c);
    }
  }

  lemma {:induction false} SkipsSpaces(m: nat, rest: string)
    requires rest == "" || rest[0] != ' '
    ensures SkipSpaces(Spaces(m) + rest) == rest
  {
    if m == 0 {
      assert Spaces(0) + rest == rest;
    } else {
      assert (Spaces(m) + rest)[1..] == Spaces(m - 1) + rest;
      SkipsSpaces(m - 1, rest);
    }
  }

  // One field and what comes after it.
  lemma {:induction false} ReadsOne(f: Field, m: nat, rest: string)
    requires Readable(f) && (rest == "" || (m > 0 && rest[0] != ' '))
    ensures var s := f.name + (f.word + (Spaces(m) + rest));
            var t := s[|f.name|..];
            var k := RunWithout(t, ' ');
            f.name <= s && t[..k] == f.word && SkipSpaces(t[k..]) == rest
  {
    var tail := Spaces(m) + rest;
    var s := f.name + (f.word + tail);
    assert s[|f.name|..] == f.word + tail;
    RunStops(f.word, tail, ' ');
    SkipsSpaces(m, rest);
    assert (f.word + tail)[|f.word|..] == tail;
  }

  lemma JustifiedIs(word: string, width: nat) returns (m: nat)
    ensures LeftJustified(word, width) == word + Spaces(m)
  {
    m := if |word| >= width then 0 else width - |word|;
    assert word + Spaces(0) == word;
  }

  lemma {:induction false} ReadsNext(s: string, labels: seq<string>, word: string, rest: string, words: seq<string>)
    requires labels != [] && labels[0] <= s
    requires var t := s[|labels[0]|..]; var k := RunWithout(t, ' '); t[..k] == word && SkipSpaces(t[k..]) == rest
    requires ReadFields(rest, labels[1..]) == Some(words)
    ensures ReadFields(s, labels) == Some([word] + words)
  {
  }

  lemma {:induction false} ReadsFirst(f: Field, m: nat, rest: string, labels: seq<string>, words: seq<string>)
    requires Readable(f) && (rest == "" || (m > 0 && rest[0] != ' '))
    requires labels != [] && labels[0] == f.name && ReadFields(rest, labels[1..]) == Some(words)
    ensures var s := f.name + (f.word + (Spaces(m) + rest));
            ReadFields(s, labels) == Some([f.word] + words) && s != "" && s[0] != ' '
  {
    var s := f.name + (f.word + (Spaces(m) + rest));
    ReadsOne(f, m, rest);
    assert s != "" && s[0] == f.name[0] != ' ';
    hide *;
    ReadsNext(s, labels, f.word, rest, words);
  }

  lemma {:induction false} FirstAndRest(fs: seq<Field>)
    requires fs != []
    ensures Labels(fs)[1..] == Labels(fs[1..]) && Labels(fs)[0] == fs[0].name
    ensures Words(fs) == [fs[0].word] + Words(fs[1..])
    ensures |fs| == 1 ==> FieldsText(fs[1..]) == ""
  {
  }

  lemma {:induction false} ReadsFields(fs: seq<Field>)
    requires forall i :: 0 <= i < |fs| ==> Readable(fs[i])
    ensures ReadFields(FieldsText(fs), Labels(fs)) == Some(Words(fs))
    ensures fs != [] ==> FieldsText(fs) != "" && FieldsText(fs)[0] != ' '
  {
    if fs == [] {
    } else {
      var f := fs[0];
      var m := JustifiedIs(f.word, f.width);
      ReadsFields(fs[1..]);
      FirstAndRest(fs);
      FieldsTextIs(fs, m);
      hide *;
      if |fs| == 1 {
        ReadsFirst(f, m, "", Labels(fs), Words(fs[1..]));
      } else {
        ReadsFirst(f, m + 1, FieldsText(fs[1..]), Labels(fs), Words(fs[1..]));
      }
    }
  }

  lemma {:induction false} FieldsTextIs(fs: seq<Field>, m: nat)
    requires fs != [] && LeftJustified(fs[0].word, fs[0].width) == fs[0].word + Spaces(m)
    ensures var f := fs[0];
            FieldsText(fs) == if |fs| == 1 then f.name + (f.word + (Spaces(m) + ""))
                              else f.name + (f.word + (Spaces(m + 1) + FieldsText(fs[1..])))
  {
    var f := fs[0];
    hide LeftJustified;
    if |fs| == 1 {
      assert Spaces(m) + "" == Spaces(m);
    } else {
      var rest := FieldsText(fs[1..]);
      assert Spaces(m) + " " == Spaces(m + 1);
      hide FieldsText;
      assert (f.name + (f.word + Spaces(m))) + (" " + rest) == f.name + (f.word + ((Spaces(m) + " ") + rest));
    }
  }

  /* ----- The printed record ----- */

  lemma {:induction false} NumberReads(x: int)
    ensures ReadInt(NumberText(x)) == Some(x) && ' ' !in NumberText(x) && '\n' !in NumberText(x)
  {
    var n := if x < 0 then -x else x;
    Numbering.ValueOfDec(n);
    var digits := Numbering.Dec(n);
    assert forall i :: 0 <= i < |digits| ==> Numbering.IsDigit(digits[i]);
    assert ("-" + digits)[1..] == digits;
    hide Numbering.Dec, Numbering.Value;
  }

  lemma WordsAre(d: Data)
    ensures Labels(FieldsOf(d)) == LABELS
    ensures Words(FieldsOf(d)) == [NumberText(d.port), NumberText(d.destPort), d.destAddr,
                                   NumberText(d.duration), NumberText(d.pid), NumberText(d.client)]
  {
    hide NumberText;
  }

  lemma {:induction false} ReadableFields(d: Data)
    requires ' ' !in d.destAddr
    ensures forall i :: 0 <= i < |FieldsOf(d)| ==> Readable(FieldsOf(d)[i])
  {
    NumberReads(d.port);
    NumberReads(d.destPort);
    NumberReads(d.duration);
    NumberReads(d.pid);
    NumberReads(d.client);
    hide NumberText, ReadInt;
  }

  lemma {:induction false} ElementWords(d: Data)
    requires ' ' !in d.destAddr
    ensures ReadFields(ElementText(d), LABELS) ==
            Some([NumberText(d.port), NumberText(d.destPort), d.destAddr,
                  NumberText(d.duration), NumberText(d.pid), NumberText(d.client)])
  {
    assert ElementText(d) == FieldsText(FieldsOf(d));
    hide *;
    ReadableFields(d);
    ReadsFields(FieldsOf(d));
    WordsAre(d);
  }

  /** A printed record determines the record: each of its values is found under its label. Addresses
      have no spaces. */
  lemma {:induction false} ElementReadsBack(d: Data)
    requires ' ' !in d.destAddr
    ensures ReadElement(ElementText(d)) == Some(d)
  {
    hide ElementText, ReadFields, NumberText, ReadInt;
    ElementWords(d);
    NumberReads(d.port);
    NumberReads(d.destPort);
    NumberReads(d.duration);
    NumberReads(d.pid);
    NumberReads(d.client);
  }

  /* ----- The printed list ----- */

  lemma {:induction false} FieldsHaveNoBreak(fs: seq<Field>)
    requires forall i :: 0 <= i < |fs| ==> '\n' !in fs[i].name && '\n' !in fs[i].word
    ensures '\n' !in FieldsText(fs)
  {
    if fs == [] {
    } else {
      FieldsHaveNoBreak(fs[1..]);
    }
  }

  lemma LabelsHaveNoBreak(i: nat)
    requires i < 6
    ensures '\n' !in LABELS[i]
  {
    if i == 0 { assert '\n' !in "source port: "; }
    else if i == 1 { assert '\n' !in "dest port: "; }
    else if i == 2 { assert '\n' !in "dest addr: "; }
    else if i == 3 { assert '\n' !in "duration: "; }
    else if i == 4 { assert '\n' !in "pid: "; }
    else { assert '\n' !in "client: "; }
  }

  lemma {:induction false} LineHasNoBreak(d: Data)
    requires '\n' !in d.destAddr
    ensures '\n' !in ElementText(d)
  {
    NumberReads(d.port);
    NumberReads(d.destPort);
    NumberReads(d.duration);
    NumberReads(d.pid);
    NumberReads(d.client);
    hide NumberText, FieldsText, ReadInt;
    var fs := FieldsOf(d);
    forall i | 0 <= i < |fs| ensures '\n' !in fs[i].name && '\n' !in fs[i].word {
      LabelsHaveNoBreak(i);
      WordsAre(d);
      assert fs[i].name == Labels(fs)[i] && fs[i].word == Words(fs)[i];
    }
    hide FieldsOf;
    FieldsHaveNoBreak(fs);
  }

  lemma {:induction false} ListTextFront(d: Data, s: seq<Data>)
    ensures ListText([d] + s) == Line(d) + ListText(s)
    decreases |s|
  {
    hide Line;
    if s == [] {
      assert ([d] + s)[..0] == [] && ListText([]) == "";
    } else {
      var front, last := s[..|s|-1], s[|s|-1];
      assert ([d] + s)[..|s|] == [d] + front;
      ListTextFront(d, front);
      assert (Line(d) + ListText(front)) + Line(last) == Line(d) + (ListText(front) + Line(last));
    }
  }

  lemma {:induction false} ReadsLine(line: string, rest: string)
    requires '\n' !in line
    ensures ReadList(line + ("\n" + rest)) == [ReadElement(line)] + ReadList(rest)
  {
    hide ReadElement;
    var text := line + ("\n" + rest);
    RunStops(line, "\n" + rest, '\n');
    assert text[..|line|] == line && text[|line|+1..] == rest;
  }

  predicate PlainAddress(d: Data) {
    ' ' !in d.destAddr && '\n' !in d.destAddr
  }

  function AllRead(s: seq<Data>): seq<Option<Data>> {
    seq(|s|, i requires 0 <= i < |s| => Some(s[i]))
  }

  lemma {:induction false} AllReadFront(s: seq<Data>)
    requires s != []
    ensures AllRead(s) == [Some(s[0])] + AllRead(s[1..])
  {
  }

  lemma Reassociate(a: string, b: string, c: string)
    ensures (a + b) + c == a + (b + c)
  {
  }

  lemma LineIs(d: Data)
    ensures Line(d) == ElementText(d) + "\n"
  {
    hide ElementText;
  }

  lemma {:induction false} TextOfFront(s: seq<Data>)
    requires s != []
    ensures ListText(s) == ElementText(s[0]) + ("\n" + ListText(s[1..]))
  {
    hide *;
    LineIs(s[0]);
    ListTextFront(s[0], s[1..]);
    assert [s[0]] + s[1..] == s;
    Reassociate(ElementText(s[0]), "\n", ListText(s[1..]));
  }

  lemma {:induction false} ReadsFront(s: seq<Data>)
    requires s != [] && PlainAddress(s[0]) && ReadList(ListText(s[1..])) == AllRead(s[1..])
    ensures ReadList(ListText(s)) == AllRead(s)
  {
    ElementReadsBack(s[0]);
    LineHasNoBreak(s[0]);
    hide *;
    TextOfFront(s);
    ReadsLine(ElementText(s[0]), ListText(s[1..]));
    AllReadFront(s);
  }

  /** The printed list determines the records in use and their order. */
  lemma {:induction false} ListReadsBack(s: seq<Data>)
    requires forall i :: 0 <= i < |s| ==> PlainAddress(s[i])
    ensures ReadList(ListText(s)) == AllRead(s)
    decreases |s|
  {
    if s == [] {
    } else {
      hide *;
      assert forall i :: 0 <= i < |s[1..]| ==> s[1..][i] == s[i+1];
      ListReadsBack(s[1..]);
      ReadsFront(s);
    }
  }
}

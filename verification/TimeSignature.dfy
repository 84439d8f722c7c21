/**
 Durations such as 3h24m23s346ms: the reading of the parts, and the documented way to write them.
 Only ASCII digits and letters are considered.
 */
module TimeSignature {
  import opened Wrappers
  import opened Numbering

  function Lower(c: char): char {
    if 'A' <= c <= 'Z' then (c as int + 32) as char else c
  }

  function LowerAll(s: string): (t: string)
    ensures |t| == |s|
  {
    seq(|s|, i requires 0 <= i < |s| => Lower(s[i]))
  }

  // Length of the leading run of digits.
  function DigitRun(s: string): (k: nat)
    ensures k <= |s| && AllDigits(s[..k])
    ensures k < |s| ==> !IsDigit(s[k])
  {
    if s == "" || !IsDigit(s[0]) then 0 else 1 + DigitRun(s[1..])
  }

  // One optional group (?:(\d+)unit)? followed, when `except` is given, by (?!except).
  function TakePart(s: string, unit: string, except: Option<char>): (r: (Option<nat>, string))
    ensures |r.1| <= |s|
  {
    var k := DigitRun(s);
    var rest := s[k..];
    if k > 0 && unit <= rest && (except.None? || |rest| == |unit| || rest[|unit|] != except.value)
    then (Some(Value(s[..k])), rest[|unit|..])
    else (None, s)
  }

  // re.match(r"\d+$"): a trailing newline is let through.
  function BareNumber(s: string): Option<string> {
    var t := if s != "" && s[|s|-1] == '\n' then s[..|s|-1] else s;
    if t != "" && AllDigits(t) then Some(t) else None
  }

  function OrZero(part: Option<nat>): nat {
    match part case None => 0 case Some(v) => v
  }

  /** The duration in milliseconds; a bare number is seconds, and whatever follows the parts that
      can be read is ignored. */
  function Translate(sign: string): nat {
    match BareNumber(sign)
    case Some(t) => assert AllDigits(t); Value(t) * 1000
    case None =>
      var (h, afterHours) := TakePart(LowerAll(sign), "h", None);
      var (m, afterMinutes) := TakePart(afterHours, "m", Some('s'));
      var (s, afterSeconds) := TakePart(afterMinutes, "s", None);
      var (ms, tail) := TakePart(afterSeconds, "ms", None);
      OrZero(h) * 3600000 + OrZero(m) * 60000 + OrZero(s) * 1000 + OrZero(ms)
  }

  /* ----- The documented notation ----- */

  // The digits of each part that is written.
  datatype Signature = Signature(h: Option<string>, m: Option<string>, s: Option<string>, ms: Option<string>)

  predicate ValidPart(part: Option<string>) {
    part.Some? ==> part.value != "" && AllDigits(part.value)
  }

  predicate ValidSignature(g: Signature) {
    && ValidPart(g.h) && ValidPart(g.m) && ValidPart(g.s) && ValidPart(g.ms)
    && (g.h.Some? || g.m.Some? || g.s.Some? || g.ms.Some?)
  }

  function Part(part: Option<string>, unit: string): string {
    match part case None => "" case Some(digits) => digits + unit
  }

  // In order, each part with its unit.
  function Notation(g: Signature): string {
    Part(g.h, "h") + (Part(g.m, "m") + (Part(g.s, "s") + Part(g.ms, "ms")))
  }

  function PartValue(part: Option<string>): nat
    requires ValidPart(part)
  {
    match part case None => 0 case Some(digits) => Value(digits)
  }

  function Milliseconds(g: Signature): nat
    requires ValidSignature(g)
  {
    PartValue(g.h) * 3600000 + PartValue(g.m) * 60000 + PartValue(g.s) * 1000 + PartValue(g.ms)
  }

  lemma {:induction false} DigitRunIs(digits: string, rest: string)
    requires AllDigits(digits) && (rest != "" ==> !IsDigit(rest[0]))
    ensures DigitRun(digits + rest) == |digits|
  {
    if digits != "" {
      assert (digits + rest)[1..] == digits[1..] + rest;
      DigitRunIs(digits[1..], rest);
    } else {
      assert digits + rest == rest;
    }
  }

  // A written part is taken, with its value.
  lemma {:induction false} TakesPart(digits: string, unit: string, rest: string, except: Option<char>)
    requires digits != "" && AllDigits(digits) && unit != "" && !IsDigit(unit[0])
    requires except.Some? ==> rest == "" || rest[0] != except.value
    ensures TakePart(digits + unit + rest, unit, except) == (Some(Value(digits)), rest)
  {
    var s := digits + unit + rest;
    assert s == digits + (unit + rest);
    DigitRunIs(digits, unit + rest);
    assert s[..|digits|] == digits && s[|digits|..] == unit + rest;
    assert (unit + rest)[|unit|..] == rest;
  }

  // A part of another unit is left alone.
  lemma SkipsPart(digits: string, other: string, rest: string, unit: string, except: Option<char>)
    requires digits != "" && AllDigits(digits) && other != "" && !IsDigit(other[0]) && |unit| == 1
    requires other[0] != unit[0] || (except.Some? && |other| > 1 && other[1] == except.value)
    ensures TakePart(digits + other + rest, unit, except) == (None, digits + other + rest)
  {
    var s := digits + other + rest;
    assert s == digits + (other + rest);
    DigitRunIs(digits, other + rest);
    assert s[|digits|..] == other + rest;
  }

  lemma ReadsMilliseconds(g: Signature)
    requires ValidPart(g.ms)
    ensures var (ms, tail) := TakePart(Part(g.ms, "ms"), "ms", None); OrZero(ms) == PartValue(g.ms)
  {
    if g.ms.Some? {
      TakesPart(g.ms.value, "ms", "", None);
      assert g.ms.value + "ms" + "" == Part(g.ms, "ms");
    }
  }

  lemma ReadsSeconds(g: Signature)
    requires ValidPart(g.s) && ValidPart(g.ms)
    ensures var tail := Part(g.ms, "ms");
            var (s, rest) := TakePart(Part(g.s, "s") + tail, "s", None);
            OrZero(s) == PartValue(g.s) && rest == tail
  {
    var tail := Part(g.ms, "ms");
    if g.s.Some? {
      TakesPart(g.s.value, "s", tail, None);
    } else if g.ms.Some? {
      SkipsPart(g.ms.value, "ms", "", "s", None);
      assert g.ms.value + "ms" + "" == "" + tail;
    } else {
      assert "" + tail == "";
    }
  }

  lemma ReadsMinutes(g: Signature)
    requires ValidPart(g.m) && ValidPart(g.s) && ValidPart(g.ms)
    ensures var tail := Part(g.s, "s") + Part(g.ms, "ms");
            var (m, rest) := TakePart(Part(g.m, "m") + tail, "m", Some('s'));
            OrZero(m) == PartValue(g.m) && rest == tail
  {
    var tail := Part(g.s, "s") + Part(g.ms, "ms");
    if g.m.Some? {
      assert tail != "" ==> IsDigit(tail[0]);
      TakesPart(g.m.value, "m", tail, Some('s'));
    } else {
      assert "" + tail == tail;
      if g.s.Some? {
        SkipsPart(g.s.value, "s", Part(g.ms, "ms"), "m", Some('s'));
      } else if g.ms.Some? {
        // five milliseconds are not five minutes: the unit is followed by an s
        SkipsPart(g.ms.value, "ms", "", "m", Some('s'));
        assert g.ms.value + "ms" + "" == tail;
      }
    }
  }

  lemma ReadsHours(g: Signature)
    requires ValidPart(g.h) && ValidPart(g.m) && ValidPart(g.s) && ValidPart(g.ms)
    ensures var tail := Part(g.m, "m") + (Part(g.s, "s") + Part(g.ms, "ms"));
            var (h, rest) := TakePart(Part(g.h, "h") + tail, "h", None);
            OrZero(h) == PartValue(g.h) && rest == tail
  {
    var tail := Part(g.m, "m") + (Part(g.s, "s") + Part(g.ms, "ms"));
    if g.h.Some? {
      TakesPart(g.h.value, "h", tail, None);
    } else {
      assert "" + tail == tail;
      if g.m.Some? {
        SkipsPart(g.m.value, "m", Part(g.s, "s") + Part(g.ms, "ms"), "h", None);
      } else if g.s.Some? {
        SkipsPart(g.s.value, "s", Part(g.ms, "ms"), "h", None);
        assert g.s.value + "s" + Part(g.ms, "ms") == tail;
      } else if g.ms.Some? {
        SkipsPart(g.ms.value, "ms", "", "h", None);
        assert g.ms.value + "ms" + "" == tail;
      }
    }
  }

  // The text is the notation, its units in either case.
  predicate Spells(text: string, g: Signature)
    requires ValidSignature(g)
  {
    var t := Notation(g);
    && |text| == |t|
    && forall i :: 0 <= i < |t| ==>
                     || text[i] == t[i]
                     || (t[i] == 'h' && text[i] == 'H')
                     || (t[i] == 'm' && text[i] == 'M')
                     || (t[i] == 's' && text[i] == 'S')
  }

  // The characters of a notation.
  predicate IsPlain(s: string) {
    forall i :: 0 <= i < |s| ==> IsDigit(s[i]) || s[i] == 'h' || s[i] == 'm' || s[i] == 's'
  }

  lemma NotationIsPlain(g: Signature)
    requires ValidSignature(g)
    ensures IsPlain(Notation(g))
  {
    assert IsPlain(Part(g.h, "h")) && IsPlain(Part(g.m, "m")) && IsPlain(Part(g.s, "s")) && IsPlain(Part(g.ms, "ms"));
    hide Part, ValidSignature;
  }

  lemma {:induction false} SpellsLower(text: string, g: Signature)
    requires ValidSignature(g) && Spells(text, g)
    ensures LowerAll(text) == Notation(g)
  {
    NotationIsPlain(g);
    hide Notation, ValidSignature;
  }

  // It ends with a unit.
  lemma NotationEnds(g: Signature)
    requires ValidSignature(g)
    ensures var t := Notation(g); t != "" && t[|t|-1] in "hms"
  {
    hide ValidPart;
    var ms := Part(g.ms, "ms");
    var s := Part(g.s, "s") + ms;
    assert g.s.Some? || g.ms.Some? ==> s != "" && s[|s|-1] in "hms";
    var m := Part(g.m, "m") + s;
    assert g.m.Some? || s != "" ==> m != "" && m[|m|-1] in "hms";
  }

  lemma NotBare(g: Signature, text: string)
    requires ValidSignature(g) && LowerAll(text) == Notation(g)
    ensures BareNumber(text).None?
  {
    NotationEnds(g);
    var t := Notation(g);
    hide Notation, ValidSignature;
    var c := text[|text|-1];
    assert t[|t|-1] == Lower(c);
    assert c != '\n' && !IsDigit(c);
    hide Lower, LowerAll;
  }

  /** Reading inverts writing: any choice of at least one part, in order and in either letter case,
      is worth the sum of its parts. */
  lemma TranslateInvertsNotation(g: Signature, text: string)
    requires ValidSignature(g) && Spells(text, g)
    ensures Translate(text) == Milliseconds(g)
  {
    SpellsLower(text, g);
    hide Spells;
    NotBare(g, text);
    ReadsHours(g);
    ReadsMinutes(g);
    ReadsSeconds(g);
    ReadsMilliseconds(g);
  }

  /** A bare number is a number of seconds. */
  lemma {:induction false} BareNumberIsSeconds(digits: string)
    requires digits != "" && AllDigits(digits)
    ensures Translate(digits) == Value(digits) * 1000
  {
    assert IsDigit(digits[|digits|-1]);
    hide TakePart, LowerAll, Value, OrZero;
  }

  /** A trailing newline does not matter to a bare number. */
  lemma {:induction false} BareNumberMayEndLine(digits: string)
    requires digits != "" && AllDigits(digits)
    ensures Translate(digits + "\n") == Value(digits) * 1000
  {
    assert (digits + "\n")[..|digits|] == digits;
    hide TakePart, LowerAll, Value, OrZero;
  }

  /** A text that does not begin with a digit is worth nothing. */
  lemma {:induction false} NoDigitIsZero(text: string)
    requires text == "" || !IsDigit(text[0])
    ensures Translate(text) == 0
  {
    var t := LowerAll(text);
    assert text != "" ==> t[0] == Lower(text[0]) && !IsDigit(t[0]);
    assert DigitRun(t) == 0;
    hide Value;
  }

  /** The documented example: 3 hours, 24 minutes, 23 seconds and 346 milliseconds. */
  lemma DocumentedExample()
    ensures Translate("3h24m23s346ms") == 12263346
  {
    var g := Signature(Some("3"), Some("24"), Some("23"), Some("346"));
    assert Notation(g) == "3h24m23s346ms";
    assert Value("3") == 3 by { assert "3"[..0] == ""; }
    assert Value("24") == 24 by { assert "24"[..1] == "2" && "2"[..0] == ""; }
    assert Value("23") == 23 by { assert "23"[..1] == "2" && "2"[..0] == ""; }
    assert Value("346") == 346 by { assert "346"[..2] == "34" && "34"[..1] == "3" && "3"[..0] == ""; }
    assert Spells("3h24m23s346ms", g);
    hide Translate, Notation, Spells, Value;
    TranslateInvertsNotation(g, "3h24m23s346ms");
  }
}

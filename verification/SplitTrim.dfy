/**
 The list parser of the configuration: a JSON array of strings, a bracketed list, or a comma-separated list.
 The JSON parser itself is a parameter: what it makes of a text, if it accepts it as an array of strings.
 */
module SplitTrim {
  import opened Common

  /** unicode.IsSpace. */
  predicate IsSpace(c: char) {
    || c == '\t' || c == '\n' || c == '\U{0B}' || c == '\U{0C}' || c == '\r' || c == ' '
    || c == '\U{85}' || c == '\U{A0}' || c == '\U{1680}' || '\U{2000}' <= c <= '\U{200A}'
    || c == '\U{2028}' || c == '\U{2029}' || c == '\U{202F}' || c == '\U{205F}' || c == '\U{3000}'
  }

  predicate IsQuote(c: char) {
    c == '\"' || c == '\''
  }

  function TrimLeft(s: string, p: char -> bool): string {
    if s != "" && p(s[0]) then TrimLeft(s[1..], p) else s
  }

  function TrimRight(s: string, p: char -> bool): string {
    if s != "" && p(s[|s| - 1]) then TrimRight(s[..|s| - 1], p) else s
  }

  function Trim(s: string, p: char -> bool): string {
    TrimRight(TrimLeft(s, p), p)
  }

  function TrimSpace(s: string): string {
    Trim(s, IsSpace)
  }

  /** What becomes of one part of a comma-separated list. */
  function Clean(s: string): string {
    Trim(TrimSpace(s), IsQuote)
  }

  /** strings.Split at commas: the empty text is one empty part. */
  function Split(s: string): (parts: seq<string>)
    ensures |parts| >= 1
    ensures forall p :: p in parts ==> ',' !in p
  {
    if s == "" then [""]
    else
      var rest := Split(s[1..]);
      if s[0] == ',' then [""] + rest else [[s[0]] + rest[0]] + rest[1..]
  }

  /** The parts after f, without those that become empty. */
  function Keep(f: string -> string, parts: seq<string>): seq<string> {
    if parts == [] then []
    else
      var last := f(parts[|parts| - 1]);
      Keep(f, parts[..|parts| - 1]) + (if last != "" then [last] else [])
  }

  predicate Bracketed(s: string) {
    s != "" && s[0] == '[' && s[|s| - 1] == ']'
  }

  /** TrimPrefix "[" and then TrimSuffix "]". */
  function Unbracket(s: string): string {
    var t := if s != "" && s[0] == '[' then s[1..] else s;
    if t != "" && t[|t| - 1] == ']' then t[..|t| - 1] else t
  }

  type Parser = string -> Option<seq<string>>

  function Parse(s: string, json: Parser): seq<string> {
    var trimmed := TrimSpace(s);
    if trimmed == "" then []
    else if Bracketed(trimmed) then
      if json(trimmed).Some? then Keep(TrimSpace, json(trimmed).value)
      else Keep(Clean, Split(Unbracket(trimmed)))
    else Keep(Clean, Split(trimmed))
  }

  lemma KeepNext(f: string -> string, parts: seq<string>, i: nat)
    requires i < |parts|
    ensures Keep(f, parts[..i + 1]) == Keep(f, parts[..i]) + (if f(parts[i]) != "" then [f(parts[i])] else [])
  {
    assert parts[..i + 1][..i] == parts[..i];
  }

  method SplitAndTrim(s: string, json: Parser) returns (res: seq<string>)
    ensures res == Parse(s, json)
  {
    var trimmed := TrimSpace(s);
    if trimmed == "" {
      return [];
    }
    if trimmed[0] == '[' && trimmed[|trimmed| - 1] == ']' {
      var arr := json(trimmed);
      if arr.Some? {
        res := [];
        for i := 0 to |arr.value|
          invariant res == Keep(TrimSpace, arr.value[..i])
        {
          var clean := TrimSpace(arr.value[i]);
          KeepNext(TrimSpace, arr.value, i);
          if clean != "" {
            res := res + [clean];
          }
        }
        assert arr.value[..|arr.value|] == arr.value;
        return;
      }
      trimmed := Unbracket(trimmed);
    }
    var parts := Split(trimmed);
    res := [];
    for i := 0 to |parts|
      invariant res == Keep(Clean, parts[..i])
    {
      var clean := Clean(parts[i]);
      KeepNext(Clean, parts, i);
      if clean != "" {
        res := res + [clean];
      }
    }
    assert parts[..|parts|] == parts;
  }

  // ---------- trimming ----------

  lemma {:induction false} TrimLeftShape(s: string, p: char -> bool)
    ensures |TrimLeft(s, p)| <= |s|
    ensures TrimLeft(s, p) == s[|s| - |TrimLeft(s, p)|..]
    ensures TrimLeft(s, p) != "" ==> !p(TrimLeft(s, p)[0])
  {
    if s != "" && p(s[0]) {
      TrimLeftShape(s[1..], p);
      var n := |TrimLeft(s, p)|;
      assert s[1..][|s| - 1 - n..] == s[|s| - n..];
    }
  }

  lemma {:induction false} TrimRightShape(s: string, p: char -> bool)
    ensures |TrimRight(s, p)| <= |s|
    ensures TrimRight(s, p) == s[..|TrimRight(s, p)|]
    ensures TrimRight(s, p) != "" ==> !p(TrimRight(s, p)[|TrimRight(s, p)| - 1])
  {
    if s != "" && p(s[|s| - 1]) {
      TrimRightShape(s[..|s| - 1], p);
      var n := |TrimRight(s, p)|;
      assert s[..|s| - 1][..n] == s[..n];
    }
  }

  lemma TrimShape(s: string, p: char -> bool)
    ensures var t := Trim(s, p);
            && |t| <= |s| && (|t| == |s| ==> t == s)
            && (forall c :: c in t ==> c in s)
            && (t != "" ==> !p(t[0]) && !p(t[|t| - 1]))
  {
    TrimLeftShape(s, p);
    var l := TrimLeft(s, p);
    TrimRightShape(l, p);
    assert forall c :: c in Trim(s, p) ==> c in l;
    assert forall c :: c in l ==> c in s;
  }

  ghost predicate All(s: string, p: char -> bool) {
    forall c :: c in s ==> p(c)
  }

  lemma {:induction false} TrimLeftDrops(s: string, p: char -> bool) returns (a: string)
    ensures s == a + TrimLeft(s, p) && All(a, p)
    decreases |s|
  {
    a := "";
    if s != "" && p(s[0]) {
      var rest := TrimLeftDrops(s[1..], p);
      a := [s[0]] + rest;
      assert s == [s[0]] + s[1..];
    }
  }

  lemma {:induction false} TrimRightDrops(s: string, p: char -> bool) returns (b: string)
    ensures s == TrimRight(s, p) + b && All(b, p)
    decreases |s|
  {
    b := "";
    if s != "" && p(s[|s| - 1]) {
      var rest := TrimRightDrops(s[..|s| - 1], p);
      b := rest + [s[|s| - 1]];
      assert s == s[..|s| - 1] + [s[|s| - 1]];
    }
  }

  /** s is t with characters of the cut set at both ends, of which t itself has none. */
  ghost predicate IsTrimmed(s: string, t: string, p: char -> bool) {
    && (exists a: string, b: string :: s == a + t + b && All(a, p) && All(b, p))
    && (t != "" ==> !p(t[0]) && !p(t[|t| - 1]))
  }

  lemma {:induction false} TrimUnpads(a: string, t: string, b: string, p: char -> bool)
    requires All(a, p) && All(b, p)
    ensures Trim(a + t + b, p) == Trim(t, p)
    decreases |b|
  {
    if b == "" {
      assert a + t + b == a + t;
      TrimAfterPrefix(a, t, p);
    } else {
      var init, c := b[..|b| - 1], b[|b| - 1];
      assert c in b && a + t + b == a + t + init + [c];
      TrimBeforeSuffix(a + t + init, c, p);
      TrimUnpads(a, t, init, p);
    }
  }

  lemma TrimmedBy(s: string, a: string, t: string, b: string, p: char -> bool)
    requires s == a + t + b && All(a, p) && All(b, p)
    requires t != "" ==> !p(t[0]) && !p(t[|t| - 1])
    ensures IsTrimmed(s, t, p)
  {
  }

  lemma TrimIsTrimmed(s: string, p: char -> bool)
    ensures IsTrimmed(s, Trim(s, p), p)
  {
    var l := TrimLeft(s, p);
    var a := TrimLeftDrops(s, p);
    var b := TrimRightDrops(l, p);
    TrimShape(s, p);
    assert a + (TrimRight(l, p) + b) == a + TrimRight(l, p) + b;
    TrimmedBy(s, a, TrimRight(l, p), b, p);
  }

  /** Trimming takes away exactly the characters of the cut set at both ends. */
  lemma TrimIff(s: string, t: string, p: char -> bool)
    ensures Trim(s, p) == t <==> IsTrimmed(s, t, p)
  {
    TrimIsTrimmed(s, p);
    if IsTrimmed(s, t, p) {
      var a: string, b: string :| s == a + t + b && All(a, p) && All(b, p);
      TrimUnpads(a, t, b, p);
      TrimFixed(t, p);
    }
  }

  lemma TrimFixed(s: string, p: char -> bool)
    ensures Trim(s, p) == s <==> s == "" || (!p(s[0]) && !p(s[|s| - 1]))
  {
    TrimShape(s, p);
  }

  /** Leading characters to be trimmed make no difference. */
  lemma {:induction false} TrimAfterPrefix(pad: string, s: string, p: char -> bool)
    requires forall c :: c in pad ==> p(c)
    ensures Trim(pad + s, p) == Trim(s, p)
  {
    if pad == "" {
      assert pad + s == s;
    } else {
      assert pad[0] in pad && (pad + s)[1..] == pad[1..] + s;
      TrimAfterPrefix(pad[1..], s, p);
    }
  }

  lemma {:induction false} TrimLeftSnoc(s: string, c: char, p: char -> bool)
    requires p(c)
    ensures TrimLeft(s + [c], p) == if TrimLeft(s, p) == "" then "" else TrimLeft(s, p) + [c]
  {
    if s == "" {
      assert [c][1..] == "";
      assert s + [c] == [c];
      assert TrimLeft([c], p) == TrimLeft("", p);
    } else if p(s[0]) {
      assert (s + [c])[1..] == s[1..] + [c];
      TrimLeftSnoc(s[1..], c, p);
    }
  }

  /** Nor does a trailing one. */
  lemma TrimBeforeSuffix(s: string, c: char, p: char -> bool)
    requires p(c)
    ensures Trim(s + [c], p) == Trim(s, p)
  {
    TrimLeftSnoc(s, c, p);
    var t := TrimLeft(s, p);
    assert (t + [c])[..|t|] == t;
  }

  // ---------- keeping ----------

  lemma {:induction false} KeepIsShorter(f: string -> string, parts: seq<string>)
    ensures |Keep(f, parts)| <= |parts|
    ensures forall x :: x in Keep(f, parts) <==> x != "" && exists p :: p in parts && x == f(p)
  {
    if parts != [] {
      KeepIsShorter(f, parts[..|parts| - 1]);
    }
  }

  /** A list comes back unchanged exactly when f keeps each of its items. */
  lemma {:induction false} KeepFixedIff(f: string -> string, items: seq<string>)
    ensures Keep(f, items) == items <==> forall x :: x in items ==> x != "" && f(x) == x
  {
    if items != [] {
      var init, last := items[..|items| - 1], items[|items| - 1];
      var kept := Keep(f, init);
      KeepFixedIff(f, init);
      KeepIsShorter(f, init);
      assert items == init + [last];
      assert forall x :: x in items <==> x in init || x == last;
      if f(last) == "" {
        assert |Keep(f, items)| < |items|;
      } else {
        assert Keep(f, items) == kept + [f(last)];
        assert Keep(f, items) == items ==> kept == init && f(last) == last by {
          if kept + [f(last)] == init + [last] {
            assert |kept| == |init| && (kept + [f(last)])[..|kept|] == kept && (init + [last])[..|init|] == init;
          }
        }
      }
    }
  }

  lemma KeepSnoc(f: string -> string, parts: seq<string>, p: string)
    ensures Keep(f, parts + [p]) == Keep(f, parts) + (if f(p) != "" then [f(p)] else [])
  {
    assert (parts + [p])[..|parts|] == parts;
  }

  lemma {:induction false} KeepAppend(f: string -> string, a: seq<string>, b: seq<string>)
    ensures Keep(f, a + b) == Keep(f, a) + Keep(f, b)
  {
    if b == [] {
      assert a + b == a;
    } else {
      var init, last := b[..|b| - 1], b[|b| - 1];
      assert b == init + [last] && a + b == a + init + [last];
      KeepAppend(f, a, init);
      KeepSnoc(f, init, last);
      KeepSnoc(f, a + init, last);
    }
  }

  lemma {:induction false} KeepSame(f: string -> string, a: seq<string>, b: seq<string>)
    requires |a| == |b| && forall i :: 0 <= i < |a| ==> f(a[i]) == f(b[i])
    ensures Keep(f, a) == Keep(f, b)
  {
    if a != [] {
      KeepSame(f, a[..|a| - 1], b[..|b| - 1]);
    }
  }

  // ---------- splitting ----------

  /** White space around the whole text is trimmed from the outer parts anyway. */
  lemma LeadingSpace(s: string)
    requires s != "" && IsSpace(s[0])
    ensures Keep(Clean, Split(s)) == Keep(Clean, Split(s[1..]))
  {
    var rest := Split(s[1..]);
    TrimAfterPrefix([s[0]], rest[0], IsSpace);
    assert Split(s) == [[s[0]] + rest[0]] + rest[1..];
    KeepSame(Clean, Split(s), rest);
  }

  lemma {:induction false} OuterSpaceLeft(s: string)
    ensures Keep(Clean, Split(TrimLeft(s, IsSpace))) == Keep(Clean, Split(s))
  {
    if s != "" && IsSpace(s[0]) {
      OuterSpaceLeft(s[1..]);
      LeadingSpace(s);
    }
  }

  /** parts with c added to the last one. */
  function Extended(parts: seq<string>, c: char): seq<string>
    requires parts != []
  {
    parts[..|parts| - 1] + [parts[|parts| - 1] + [c]]
  }

  /** Split after one more character in front. */
  function Prepended(a: char, parts: seq<string>): seq<string>
    requires parts != []
  {
    if a == ',' then [""] + parts else [[a] + parts[0]] + parts[1..]
  }

  lemma ExtendPrepended(a: char, parts: seq<string>, c: char)
    requires parts != []
    ensures Prepended(a, Extended(parts, c)) == Extended(Prepended(a, parts), c)
  {
    if a != ',' && |parts| == 1 {
      assert [a] + (parts[0] + [c]) == [a] + parts[0] + [c];
    }
  }

  lemma {:induction false} SplitSnoc(s: string, c: char)
    requires c != ','
    ensures Split(s + [c]) == Extended(Split(s), c)
  {
    if s == "" {
      assert s + [c] == [c] && [c][1..] == "";
      assert [c] + "" == "" + [c];
      assert Split([c]) == [[c] + ""];
    } else {
      assert (s + [c])[1..] == s[1..] + [c];
      SplitSnoc(s[1..], c);
      ExtendPrepended(s[0], Split(s[1..]), c);
    }
  }

  lemma {:induction false} OuterSpaceRight(s: string)
    ensures Keep(Clean, Split(TrimRight(s, IsSpace))) == Keep(Clean, Split(s))
  {
    if s != "" && IsSpace(s[|s| - 1]) {
      var t, c := s[..|s| - 1], s[|s| - 1];
      assert s == t + [c];
      OuterSpaceRight(t);
      SplitSnoc(t, c);
      TrimBeforeSuffix(Split(t)[|Split(t)| - 1], c, IsSpace);
      KeepSame(Clean, Split(s), Split(t));
    }
  }

  /** Without brackets, the parser is Keep over the comma-separated parts. */
  lemma ParseCommaForm(s: string, json: Parser)
    requires !Bracketed(TrimSpace(s))
    ensures Parse(s, json) == Keep(Clean, Split(s))
  {
    OuterSpaceLeft(s);
    OuterSpaceRight(TrimLeft(s, IsSpace));
  }

  // ---------- round trip ----------

  /** The items joined by a comma and the padding. */
  function Join(items: seq<string>, pad: string): string {
    if items == [] then ""
    else if |items| == 1 then items[0]
    else items[0] + "," + pad + Join(items[1..], pad)
  }

  lemma {:induction false} SplitHead(x: string, rest: string)
    requires ',' !in x
    ensures Split(x + "," + rest) == [x] + Split(rest)
  {
    if x == "" {
      assert x + "," + rest == "," + rest && ("," + rest)[1..] == rest;
    } else {
      assert (x + "," + rest)[1..] == x[1..] + "," + rest;
      SplitHead(x[1..], rest);
      assert [x[0]] + x[1..] == x;
    }
  }

  lemma {:induction false} SplitNone(x: string)
    requires ',' !in x
    ensures Split(x) == [x]
  {
    if x != "" {
      SplitNone(x[1..]);
      assert [x[0]] + x[1..] == x;
    }
  }

  lemma {:induction false} SplitPrefix(pad: string, s: string)
    requires ',' !in pad
    ensures |Split(pad + s)| == |Split(s)|
    ensures Split(pad + s)[0] == pad + Split(s)[0] && Split(pad + s)[1..] == Split(s)[1..]
  {
    if pad == "" {
      assert pad + s == s && pad + Split(s)[0] == Split(s)[0];
    } else {
      assert (pad + s)[1..] == pad[1..] + s;
      SplitPrefix(pad[1..], s);
      assert [pad[0]] + (pad[1..] + Split(s)[0]) == pad + Split(s)[0];
    }
  }

  lemma {:induction false} KeepJoined(items: seq<string>, pad: string)
    requires forall x :: x in items ==> ',' !in x
    requires forall c :: c in pad ==> IsSpace(c)
    ensures Keep(Clean, Split(Join(items, pad))) == Keep(Clean, items)
  {
    if items == [] {
      assert Clean("") == "";
      assert Split("") == [""];
    } else if |items| == 1 {
      SplitNone(items[0]);
      assert items == [items[0]];
    } else {
      var x, tail := items[0], Join(items[1..], pad);
      KeepJoined(items[1..], pad);
      assert x + "," + pad + tail == x + "," + (pad + tail);
      SplitHead(x, pad + tail);
      SplitPrefix(pad, tail);
      TrimAfterPrefix(pad, Split(tail)[0], IsSpace);
      KeepSame(Clean, Split(pad + tail), Split(tail));
      KeepAppend(Clean, [x], Split(pad + tail));
      KeepAppend(Clean, [x], items[1..]);
      assert items == [x] + items[1..];
    }
  }

  /** Not empty, no comma, and neither white space nor a quote at either end. */
  predicate Plain(x: string) {
    && x != "" && ',' !in x
    && !IsSpace(x[0]) && !IsQuote(x[0]) && !IsSpace(x[|x| - 1]) && !IsQuote(x[|x| - 1])
  }

  lemma CleanFixedIff(x: string)
    requires x != ""
    ensures Clean(x) == x <==> !IsSpace(x[0]) && !IsQuote(x[0]) && !IsSpace(x[|x| - 1]) && !IsQuote(x[|x| - 1])
  {
    TrimShape(x, IsSpace);
    TrimFixed(x, IsSpace);
    TrimShape(TrimSpace(x), IsQuote);
    TrimFixed(x, IsQuote);
  }

  lemma JoinWithComma(parts: seq<string>)
    requires parts != []
    ensures Join([""] + parts, "") == "," + Join(parts, "")
  {
    assert ([""] + parts)[1..] == parts;
    assert "" + "," + "" + Join(parts, "") == "," + Join(parts, "");
  }

  lemma JoinLonger(c: char, head: string, tail: seq<string>)
    ensures Join([[c] + head] + tail, "") == [c] + Join([head] + tail, "")
  {
    assert ([[c] + head] + tail)[1..] == tail && ([head] + tail)[1..] == tail;
    if tail != [] {
      var rest := Join(tail, "");
      assert [c] + head + "," + "" + rest == [c] + (head + "," + "" + rest);
    }
  }

  /** Splitting and joining again gives the text back, so the parts are those between the commas. */
  lemma {:induction false} SplitJoins(s: string)
    ensures Join(Split(s), "") == s
  {
    if s != "" {
      var rest := Split(s[1..]);
      SplitJoins(s[1..]);
      assert s == [s[0]] + s[1..];
      if s[0] == ',' {
        JoinWithComma(rest);
      } else {
        assert rest == [rest[0]] + rest[1..];
        JoinLonger(s[0], rest[0], rest[1..]);
      }
    }
  }

  /**
   Which items a text is parsed to: the trimmed strings of its JSON array if it is one in brackets, and otherwise the
   parts between the commas inside the brackets, if any, without the white space and then the quotes around each.
   */
  lemma ParsedItemsIff(s: string, json: Parser, x: string)
    ensures var t := TrimSpace(s);
            var bracketed := t != "" && t[0] == '[' && t[|t| - 1] == ']';
            x in Parse(s, json) <==>
              && t != "" && x != ""
              && (if bracketed && json(t).Some? then
                    exists y :: y in json(t).value && IsTrimmed(y, x, IsSpace)
                  else
                    exists part :: part in Split(if bracketed then t[1..|t| - 1] else t) && IsCleaned(part, x))
  {
    var t := TrimSpace(s);
    if Bracketed(t) {
      assert Unbracket(t) == t[1..|t| - 1];
    }
    if Bracketed(t) && json(t).Some? {
      KeepIsShorter(TrimSpace, json(t).value);
      forall y ensures TrimSpace(y) == x <==> IsTrimmed(y, x, IsSpace) {
        TrimIff(y, x, IsSpace);
      }
    } else {
      KeepIsShorter(Clean, Split(if Bracketed(t) then t[1..|t| - 1] else t));
      forall part ensures Clean(part) == x <==> IsCleaned(part, x) {
        CleanIff(part, x);
      }
    }
  }

  /** x is the part without the white space around it, and then without the quotes around that. */
  ghost predicate IsCleaned(part: string, x: string) {
    exists y :: IsTrimmed(part, y, IsSpace) && IsTrimmed(y, x, IsQuote)
  }

  lemma CleanIff(part: string, x: string)
    ensures Clean(part) == x <==> IsCleaned(part, x)
  {
    TrimIff(part, TrimSpace(part), IsSpace);
    TrimIff(TrimSpace(part), x, IsQuote);
    forall y ensures IsTrimmed(part, y, IsSpace) <==> y == TrimSpace(part) {
      TrimIff(part, y, IsSpace);
    }
  }

  lemma CleanedParts(s: string, x: string)
    requires x in Keep(Clean, Split(s))
    ensures x != "" && ',' !in x
  {
    KeepIsShorter(Clean, Split(s));
    var p :| p in Split(s) && x == Clean(p);
    TrimShape(p, IsSpace);
    TrimShape(TrimSpace(p), IsQuote);
  }

  /** In comma form no item is empty and none contains a comma. */
  lemma CommaFormItems(s: string, json: Parser, x: string)
    requires !Bracketed(TrimSpace(s)) && x in Parse(s, json)
    ensures x != "" && ',' !in x
  {
    ParseCommaForm(s, json);
    CleanedParts(s, x);
  }

  /** No form ever yields an empty item. */
  lemma NoEmptyItem(s: string, json: Parser, x: string)
    requires x in Parse(s, json)
    ensures x != ""
  {
    var trimmed := TrimSpace(s);
    if json(trimmed).Some? {
      KeepIsShorter(TrimSpace, json(trimmed).value);
    }
    KeepIsShorter(Clean, Split(Unbracket(trimmed)));
    KeepIsShorter(Clean, Split(trimmed));
  }

  /** The cleaned parts of a joined list are its items exactly when all of them are plain. */
  lemma JoinedPartsIff(items: seq<string>, pad: string)
    requires forall c :: c in pad ==> IsSpace(c)
    ensures Keep(Clean, Split(Join(items, pad))) == items <==> forall x :: x in items ==> Plain(x)
  {
    if forall x :: x in items ==> ',' !in x {
      KeepJoined(items, pad);
      KeepFixedIff(Clean, items);
      forall x | x in items && x != "" ensures Clean(x) == x <==> Plain(x) {
        CleanFixedIff(x);
      }
    } else {
      var x :| x in items && ',' in x;
      if x in Keep(Clean, Split(Join(items, pad))) {
        CleanedParts(Join(items, pad), x);
        assert false;
      }
    }
  }

  /**
   Round trip. A list joined by commas, with any white space after each, is parsed back to itself exactly when all
   its items are plain, provided the joined text does not look like a bracketed list.
   */
  lemma RoundTripIff(items: seq<string>, pad: string, json: Parser)
    requires forall c :: c in pad ==> IsSpace(c)
    requires !Bracketed(TrimSpace(Join(items, pad)))
    ensures Parse(Join(items, pad), json) == items <==> forall x :: x in items ==> Plain(x)
  {
    ParseCommaForm(Join(items, pad), json);
    JoinedPartsIff(items, pad);
  }

  /** The same list in brackets, when it is not an array of strings in JSON, is parsed back on the same condition. */
  lemma BracketFormIff(items: seq<string>, pad: string, json: Parser)
    requires forall c :: c in pad ==> IsSpace(c)
    requires json("[" + Join(items, pad) + "]").None?
    ensures Parse("[" + Join(items, pad) + "]", json) == items <==> forall x :: x in items ==> Plain(x)
  {
    var joined := Join(items, pad);
    var s := "[" + joined + "]";
    TrimFixed(s, IsSpace);
    assert s[1..] == joined + "]" && (joined + "]")[..|joined|] == joined;
    assert TrimSpace(s) == s && Bracketed(s) && Unbracket(s) == joined;
    JoinedPartsIff(items, pad);
  }

  /** A JSON array comes back unchanged exactly when no string in it is empty or has white space at an end. */
  lemma JsonFormIff(s: string, json: Parser)
    requires Bracketed(TrimSpace(s)) && json(TrimSpace(s)).Some?
    ensures Parse(s, json) == json(TrimSpace(s)).value
            <==> forall x :: x in json(TrimSpace(s)).value ==> x != "" && !IsSpace(x[0]) && !IsSpace(x[|x| - 1])
  {
    var arr := json(TrimSpace(s)).value;
    KeepFixedIff(TrimSpace, arr);
    forall x | x in arr && x != "" ensures TrimSpace(x) == x <==> !IsSpace(x[0]) && !IsSpace(x[|x| - 1]) {
      TrimFixed(x, IsSpace);
    }
  }

  /** Items are not always trimmed: padding inside quotes survives. */
  lemma QuotedPaddingSurvives(json: Parser)
    ensures Parse("' a'", json) == [" a"]
  {
    var s := "' a'";
    assert TrimLeft(s, IsSpace) == s && TrimSpace(s) == s;
    assert TrimLeft(s, IsQuote) == " a'" by { assert s[1..] == " a'"; }
    assert " a'"[..2] == " a";
    assert TrimRight(" a'", IsQuote) == TrimRight(" a", IsQuote) == " a";
    SplitNone(s);
    assert Clean(s) == " a";
    assert [s][..0] == [];
  }
}

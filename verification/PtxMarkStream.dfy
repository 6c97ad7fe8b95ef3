/** Markers read on token streams: where they go, and why the scanner passes over them. */
module PtxMarkStream {
  import opened Wrappers
  import opened PtxText
  import opened PtxLex
  import opened PtxMarkers

  // ----- the quoted file name is one closed string -----

  function EscapeOne(c: char): string {
    if c == '\\' then "\\\\" else if c == '"' then "\\\"" else [c]
  }

  /** What a reader of the literal takes as the name. */
  function Unescaped(s: string): string
    decreases |s|
  {
    if s == "" then ""
    else if s[0] == '\\' && |s| >= 2 then [s[1]] + Unescaped(s[2..])
    else [s[0]] + Unescaped(s[1..])
  }

  lemma {:induction false} ReplaceConcat(a: string, b: string, c: char, r: string)
    ensures Replace(a + b, c, r) == Replace(a, c, r) + Replace(b, c, r)
  {
    if a == "" {
      assert a + b == b;
    } else {
      HeadTail(a, b);
      ReplaceConcat(a[1..], b, c, r);
      var h := if a[0] == c then r else [a[0]];
      assert h + (Replace(a[1..], c, r) + Replace(b, c, r)) == h + Replace(a[1..], c, r) + Replace(b, c, r);
    }
  }

  lemma ReplaceOne(c: char, target: char, r: string)
    ensures Replace([c], target, r) == if c == target then r else [c]
  {
    assert Replace([c][1..], target, r) == "";
    assert r + "" == r;
  }

  lemma ReplaceTwo(c: char, d: char, target: char, r: string)
    requires c != target && d != target
    ensures Replace([c, d], target, r) == [c, d]
  {
    assert [c, d] == [c] + [d];
    ReplaceConcat([c], [d], target, r);
    ReplaceOne(c, target, r);
    ReplaceOne(d, target, r);
  }

  /** The two replacements, done one character at a time. */
  lemma EscapedStep(name: string)
    requires name != ""
    ensures Escaped(name) == EscapeOne(name[0]) + Escaped(name[1..])
  {
    hide Replace;
    var c := name[0];
    assert name == [c] + name[1..];
    ReplaceConcat([c], name[1..], '\\', "\\\\");
    ReplaceOne(c, '\\', "\\\\");
    var once := if c == '\\' then "\\\\" else [c];
    ReplaceConcat(once, Replace(name[1..], '\\', "\\\\"), '"', "\\\"");
    if c == '\\' {
      ReplaceTwo('\\', '\\', '"', "\\\"");
    } else {
      ReplaceOne(c, '"', "\\\"");
    }
  }

  lemma EscapedNone()
    ensures Escaped("") == ""
  {
  }

  lemma StringTailStep(v: string, k: nat)
    requires 1 <= k <= |v| && v[0] != '"' && k == (if v[0] == '\\' then 2 else 1) && (k == 2 ==> v[1] != '\n')
    requires StringTail(v[k..], false).Some?
    ensures StringTail(v, false) == Some(k + StringTail(v[k..], false).value)
  {
  }

  lemma EscapeOneTail(c: char, u: string)
    requires StringTail(u, false).Some?
    ensures StringTail(EscapeOne(c) + u, false) == Some(|EscapeOne(c)| + StringTail(u, false).value)
  {
    hide StringTail;
    var e := EscapeOne(c);
    Appended(e, u);
    assert (e + u)[0] == e[0] && (e + u)[|e| - 1] == e[|e| - 1];
    StringTailStep(e + u, |e|);
  }

  lemma {:induction false} EscapedCloses(name: string)
    ensures StringTail(Escaped(name) + "\"", false) == Some(|Escaped(name)| + 1)
  {
    hide Escaped, EscapeOne;
    if name == "" {
      EscapedNone();
      assert "" + "\"" == "\"";
    } else {
      EscapedStep(name);
      EscapedCloses(name[1..]);
      EscapeOneTail(name[0], Escaped(name[1..]) + "\"");
      assert Escaped(name) + "\"" == EscapeOne(name[0]) + (Escaped(name[1..]) + "\"");
    }
  }

  /** Every name makes one closed string token. */
  lemma QuotedIsString(name: string)
    ensures IsString(Quoted(name)) && IsToken(Quoted(name))
  {
    hide Escaped;
    EscapedCloses(name);
    assert Quoted(name)[1..] == Escaped(name) + "\"";
  }

  lemma UnescapeOne(c: char, u: string)
    ensures Unescaped(EscapeOne(c) + u) == [c] + Unescaped(u)
  {
    var e := EscapeOne(c);
    Appended(e, u);
    assert (e + u)[0] == e[0] && (e + u)[|e| - 1] == e[|e| - 1];
  }

  /** The reader of the literal gets the name back, whatever quotes and backslashes it has. */
  lemma {:induction false} QuotedRoundTrip(name: string)
    ensures Unescaped(Escaped(name)) == name
  {
    hide Escaped, EscapeOne;
    if name == "" {
      EscapedNone();
    } else {
      EscapedStep(name);
      QuotedRoundTrip(name[1..]);
      UnescapeOne(name[0], Escaped(name[1..]));
    }
  }

  // ----- marker tokens -----

  function Digits(gap: string, digits: string, y: Stream): Stream
    requires digits != ""
    decreases |digits|
  {
    Cons(gap, digits[..1], if |digits| == 1 then y else Digits("", digits[1..], y))
  }

  /** The tokens of a `.loc` marker after white space `gap`, then `y`. */
  function LocStream(gap: string, index: string, line: string, y: Stream): Stream
    requires index != "" && line != ""
  {
    Cons(gap, ".loc", Digits(" ", index, Digits(" ", line, Cons(" ", "0", y))))
  }

  function AddGap(gap: string, y: Stream): Stream {
    if y.End? then End(gap + y.gap) else y.(gap := gap + y.gap)
  }

  function FileStream(index: string, quoted: string, y: Stream): Stream
    requires index != ""
  {
    Cons("\n", ".file", Digits(" ", index, Cons(" ", quoted, AddGap("\n", y))))
  }

  lemma {:induction false} DigitsText(gap: string, digits: string, y: Stream)
    requires digits != ""
    ensures Text(Digits(gap, digits, y)) == gap + digits + Text(y)
    decreases |digits|
  {
    if |digits| == 1 {
      assert digits[..1] == digits;
    } else {
      DigitsText("", digits[1..], y);
      Split(digits, 1);
      assert "" + digits[1..] == digits[1..];
      assert gap + digits[..1] + (digits[1..] + Text(y)) == gap + (digits[..1] + digits[1..]) + Text(y);
    }
  }

  lemma {:induction false} DigitsClosed(gap: string, digits: string, y: Stream)
    requires digits != "" && AllDigits(digits) && AllSpace(gap) && Closed(y) && Separated(y)
    ensures Closed(Digits(gap, digits, y)) && Separated(Digits(gap, digits, y))
    decreases |digits|
  {
    assert digits[..1][0] == digits[0];
    if |digits| > 1 {
      DigitsClosed("", digits[1..], y);
    }
  }

  lemma LocIsToken()
    ensures IsToken(".loc") && IsToken("0")
  {
    assert ".loc"[1..] == "loc" && "loc"[1..] == "oc" && "oc"[1..] == "c" && "c"[1..] == "";
    assert IdTail("") == 0 && IdTail("c") == 1 && IdTail("oc") == 2 && IdTail("loc") == 3;
  }

  lemma FileIsToken()
    ensures IsToken(".file")
  {
    assert ".file"[1..] == "file" && "file"[1..] == "ile" && "ile"[1..] == "le" && "le"[1..] == "e" && "e"[1..] == "";
    assert IdTail("") == 0 && IdTail("e") == 1 && IdTail("le") == 2 && IdTail("ile") == 3 && IdTail("file") == 4;
  }

  lemma SpaceFirst(y: Stream)
    requires y.gap != "" && AllSpace(y.gap)
    ensures !ContinuesId(Text(y))
  {
    assert Text(y)[0] == y.gap[0];
  }

  lemma LocClosed(gap: string, index: string, line: string, y: Stream)
    requires index != "" && AllDigits(index) && line != "" && AllDigits(line)
    requires AllSpace(gap) && Closed(y) && Separated(y)
    ensures var z := LocStream(gap, index, line, y); Closed(z) && Separated(z)
  {
    hide IsIdentifier, IsString, IsSymbol;
    LocIsToken();
    ZeroIsNoIdentifier();
    var last := Cons(" ", "0", y);
    DigitsClosed(" ", line, last);
    DigitsClosed(" ", index, Digits(" ", line, last));
    SpaceFirst(Digits(" ", index, Digits(" ", line, last)));
  }

  lemma ZeroIsNoIdentifier()
    ensures !IsIdentifier("0")
  {
  }

  lemma AddGapClosed(gap: string, y: Stream)
    requires AllSpace(gap) && Closed(y) && Separated(y)
    ensures Closed(AddGap(gap, y)) && Separated(AddGap(gap, y)) && Text(AddGap(gap, y)) == gap + Text(y)
  {
    if y.Cons? {
      assert gap + y.gap + y.tok + Text(y.rest) == gap + (y.gap + y.tok + Text(y.rest));
    }
  }

  lemma FileClosed(index: string, quoted: string, y: Stream)
    requires index != "" && AllDigits(index) && IsString(quoted) && Closed(y) && Separated(y)
    ensures var z := FileStream(index, quoted, y); Closed(z) && Separated(z)
  {
    FileIsToken();
    AddGapClosed("\n", y);
    var last := Cons(" ", quoted, AddGap("\n", y));
    DigitsClosed(" ", index, last);
    SpaceFirst(Digits(" ", index, last));
  }
}

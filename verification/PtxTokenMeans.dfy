/** What the character classes and the tokens of the scanner are, in the terms of its regular expressions. */
module PtxTokenMeans {
  import opened Wrappers
  import opened PtxText
  import opened PtxLex
  import opened PtxCommentMeans

  /** The code points that Python takes for white space. */
  predicate SpaceCode(k: int) {
    || 0x09 <= k <= 0x0D || 0x1C <= k <= 0x20 || k == 0x85 || k == 0xA0 || k == 0x1680 || 0x2000 <= k <= 0x200A
    || k == 0x2028 || k == 0x2029 || k == 0x202F || k == 0x205F || k == 0x3000
  }

  predicate LetterCode(k: int) {
    65 <= k <= 90 || 97 <= k <= 122
  }

  predicate DigitCode(k: int) {
    48 <= k <= 57
  }

  /** The classes in code points: white space, digits, word characters, and what starts and continues an identifier. */
  lemma CharacterClasses(c: char)
    ensures IsSpace(c) <==> SpaceCode(c as int)
    ensures IsDigit(c) <==> DigitCode(c as int)
    ensures IsWord(c) <==> LetterCode(c as int) || DigitCode(c as int) || c == '_'
    ensures IsIdStart(c) <==> LetterCode(c as int) || c in "_.$%"
    ensures IsIdPart(c) <==> LetterCode(c as int) || DigitCode(c as int) || c in "_.$%"
  {
    var marks := "_.$%";
    assert marks[0] == '_' && marks[1] == '.' && marks[2] == '$' && marks[3] == '%';
  }

  /** Identifier characters and double colons, in any order. */
  predicate IdBody(b: string)
    decreases |b|
  {
    if b == "" then true
    else if b[0] == ':' then |b| >= 2 && b[1] == ':' && IdBody(b[2..])
    else IsIdPart(b[0]) && IdBody(b[1..])
  }

  /** An identifier takes all it can. */
  lemma {:induction false} IdTailMeans(u: string)
    ensures IdBody(u[..IdTail(u)])
    ensures var n := IdTail(u);
            n < |u| ==> !IsIdPart(u[n]) && !(n + 1 < |u| && u[n] == ':' && u[n + 1] == ':')
    decreases |u|
  {
    var n := IdTail(u);
    if ContinuesId(u) {
      var k := if IsIdPart(u[0]) then 1 else 2;
      IdTailMeans(u[k..]);
      assert u[..n][k..] == u[k..][..n - k] && u[..n][0] == u[0] && u[..n][k - 1] == u[k - 1];
    }
  }

  /** The string that starts with the text's first character, if the regex finds one. */
  ghost predicate StringAt(u: string, n: nat) {
    n <= |u| && StringLiteral(u[..n], false)
  }

  lemma StringAtMeans(u: string, n: nat)
    requires u != ""
    ensures StringAt(u, n) <==> u[0] == '"' && n >= 1 && StringTail(u[1..], false) == Some(n - 1)
  {
    if u[0] == '"' && n >= 2 {
      StringTailMeans(u[1..], false, n - 1);
      if n <= |u| {
        assert u[..n][1..n - 1] == u[1..][..n - 2];
      }
    }
  }

  /**
   The token at the front of a text: the string that starts there if one does; else all of an identifier, if its
   first character starts one; else one character.
   */
  lemma TokenMeans(u: string)
    requires u != "" && !IsSpace(u[0])
    ensures forall n :: StringAt(u, n) ==> TokenLen(u) == n
    ensures (forall n :: !StringAt(u, n)) && IsIdStart(u[0]) ==>
              var n := TokenLen(u);
              && IdBody(u[1..n])
              && (n < |u| ==> !IsIdPart(u[n]) && !(n + 1 < |u| && u[n] == ':' && u[n + 1] == ':'))
    ensures (forall n :: !StringAt(u, n)) && !IsIdStart(u[0]) ==> TokenLen(u) == 1
  {
    hide StringTail, IdTail, IdBody, StringAt;
    forall n ensures StringAt(u, n) <==> u[0] == '"' && n >= 1 && StringTail(u[1..], false) == Some(n - 1) {
      StringAtMeans(u, n);
    }
    if u[0] == '"' && StringTail(u[1..], false).Some? {
      assert StringAt(u, StringTail(u[1..], false).value + 1);
    }
    if IsIdStart(u[0]) {
      IdTailMeans(u[1..]);
      var k := IdTail(u[1..]);
      assert u[1..][..k] == u[1..1 + k];
    }
  }
}

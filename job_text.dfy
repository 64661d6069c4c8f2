/** The text handling of the job pages, written as scanners: the paste
    formatter of the job forms (`\r\n` to `\n`, a line-leading marker with
    the whitespace around it to "• ", then `trim`), the bullet rendering of
    the job detail page (`split(/\r?\n/)`, drop blank lines, strip the
    leading markers) and the job-type display. */
module JobText {
  import opened JsString

  /** The list markers the formatter recognises. */
  predicate IsMarker(c: char) {
    c == '-' || c == '•' || c == '*'
  }

  /** The text proper: every character that is neither whitespace nor a
      list marker, in order. */
  function Letters(s: string): string
    decreases |s|
  {
    if s == [] then [] else (if IsSpace(s[0]) || IsMarker(s[0]) then [] else [s[0]]) + Letters(s[1..])
  }

  lemma {:induction false} LettersAppend(a: string, b: string)
    ensures Letters(a + b) == Letters(a) + Letters(b)
    decreases |a|
  {
    if a == [] {
      assert a + b == b;
    } else {
      assert (a + b)[1..] == a[1..] + b;
      LettersAppend(a[1..], b);
    }
  }

  /** Whitespace never counts as text, so only the non-space characters
      decide the letters. */
  lemma {:induction false} LettersOfNonSpace(s: string)
    ensures Letters(NonSpace(s)) == Letters(s)
    decreases |s|
  {
    if s != [] {
      LettersOfNonSpace(s[1..]);
      var head := if IsSpace(s[0]) then [] else [s[0]];
      LettersAppend(head, NonSpace(s[1..]));
    }
  }

  /** Trimming loses no text. */
  lemma TrimKeepsLetters(s: string)
    ensures Letters(Trim(s)) == Letters(s)
  {
    LettersOfNonSpace(s);
    LettersOfNonSpace(Trim(s));
  }

  /** Whitespace and markers hold no letters. */
  lemma {:induction false} NoLettersInMarkup(s: string)
    requires forall i :: 0 <= i < |s| ==> IsSpace(s[i]) || IsMarker(s[i])
    ensures Letters(s) == []
    decreases |s|
  {
    if s != [] {
      assert forall i :: 0 <= i < |s| - 1 ==> s[1..][i] == s[i + 1];
      NoLettersInMarkup(s[1..]);
    }
  }

  lemma {:induction false} NoLettersInSpace(s: string)
    requires AllSpace(s)
    ensures Letters(s) == []
    decreases |s|
  {
    if s != [] {
      NoLettersInSpace(s[1..]);
    }
  }

  // ---------------------------------------------------------------------
  // The paste formatter.

  /** No CR is directly followed by an LF. */
  predicate NoCrlf(s: string) {
    forall i :: 0 <= i < |s| - 1 ==> !(s[i] == '\r' && s[i + 1] == '\n')
  }

  /** `replace(/\r\n/g, "\n")`: every CR LF pair, scanned from the left,
      becomes one LF. A string without such a pair is returned as it is (a
      lone CR stays), and no character is made up. */
  function ReplaceCrlf(s: string): (r: string)
    ensures |r| <= |s|
    ensures Letters(r) == Letters(s)
    ensures NoCrlf(s) ==> r == s
    decreases |s|
  {
    if s == [] then []
    else if |s| >= 2 && s[0] == '\r' && s[1] == '\n' then
      var rest := ReplaceCrlf(s[2..]);
      assert Letters(s) == Letters(s[1..]) && Letters(s[1..]) == Letters(s[2..]);
      "\n" + rest
    else
      var rest := ReplaceCrlf(s[1..]);
      assert NoCrlf(s) ==> NoCrlf(s[1..]) by {
        if NoCrlf(s) {
          forall i | 0 <= i < |s[1..]| - 1
            ensures !(s[1..][i] == '\r' && s[1..][i + 1] == '\n')
          {
            assert s[1..][i] == s[i + 1] && s[1..][i + 1] == s[i + 2];
          }
        }
      }
      [s[0]] + rest
  }

  /** `ReplaceCrlf` makes up no character. */
  lemma {:induction false} ReplaceCrlfChars(s: string)
    ensures forall c :: c in ReplaceCrlf(s) ==> c in s
    decreases |s|
  {
    if s == [] {
    } else if |s| >= 2 && s[0] == '\r' && s[1] == '\n' {
      ReplaceCrlfChars(s[2..]);
    } else {
      ReplaceCrlfChars(s[1..]);
    }
  }

  /** The two steps of the replacement: a leading pair gives one LF, any
      other leading character is copied. */
  lemma ReplaceCrlfStep(s: string)
    requires s != []
    ensures |s| >= 2 && s[0] == '\r' && s[1] == '\n' ==> ReplaceCrlf(s) == "\n" + ReplaceCrlf(s[2..])
    ensures !(|s| >= 2 && s[0] == '\r' && s[1] == '\n') ==> ReplaceCrlf(s) == [s[0]] + ReplaceCrlf(s[1..])
  {
  }

  /** Text that starts with a CR LF pair is replaced independently of what
      precedes it: a CR at the end of `a` is not taken into the pair, since
      the pair's own CR follows it. */
  lemma {:induction false} ReplaceCrlfSplice(a: string, t: string)
    requires |t| >= 2 && t[0] == '\r' && t[1] == '\n'
    ensures ReplaceCrlf(a + t) == ReplaceCrlf(a) + ReplaceCrlf(t)
    decreases |a|
  {
    var s := a + t;
    if a == [] {
      assert s == t;
    } else {
      ReplaceCrlfStep(s);
      ReplaceCrlfStep(a);
      if |a| >= 2 && a[0] == '\r' && a[1] == '\n' {
        DropAppend(a, t, 2);
        ReplaceCrlfSplice(a[2..], t);
        SeqAppendAssoc("\n", ReplaceCrlf(a[2..]), ReplaceCrlf(t));
      } else {
        DropAppend(a, t, 1);
        assert s[1] == if |a| == 1 then t[0] else a[1];
        ReplaceCrlfSplice(a[1..], t);
        SeqAppendAssoc([a[0]], ReplaceCrlf(a[1..]), ReplaceCrlf(t));
      }
    }
  }

  /** Each CR LF pair becomes one LF, and the text on either side of it is
      replaced on its own. */
  lemma ReplaceCrlfPair(a: string, b: string)
    ensures ReplaceCrlf(a + "\r\n" + b) == ReplaceCrlf(a) + "\n" + ReplaceCrlf(b)
  {
    var t := "\r\n" + b;
    assert a + "\r\n" + b == a + t;
    ReplaceCrlfSplice(a, t);
    assert t[2..] == b;
  }

  /** The length of the whitespace run at the start of `t`: the part a
      greedy `\s*` takes. */
  function SpaceRun(t: string): (n: nat)
    ensures n <= |t|
    ensures n == |t| || !IsSpace(t[n])
    decreases |t|
  {
    if t != [] && IsSpace(t[0]) then 1 + SpaceRun(t[1..]) else 0
  }

  /** The run is whitespace throughout, so it is the longest one. */
  lemma {:induction false} SpaceRunIsSpace(t: string)
    ensures forall i :: 0 <= i < SpaceRun(t) ==> IsSpace(t[i])
    decreases |t|
  {
    if t != [] && IsSpace(t[0]) {
      SpaceRunIsSpace(t[1..]);
      assert forall i :: 1 <= i < SpaceRun(t) ==> t[i] == t[1..][i - 1];
    }
  }

  /** `\s*[-•*]` matches at the start of `t`: a whitespace run, then a
      marker. Since a marker is not whitespace, `\s*` has to take the whole
      run. */
  predicate MatchHere(t: string) {
    SpaceRun(t) < |t| && IsMarker(t[SpaceRun(t)])
  }

  /** The length of that match with the trailing `\s*`: the run, the marker
      and the whitespace run after it. The match cannot be extended by more
      whitespace. */
  function MatchLen(t: string): (e: nat)
    requires MatchHere(t)
    ensures 0 < e <= |t|
    ensures e == |t| || !IsSpace(t[e])
  {
    var m := SpaceRun(t);
    m + 1 + SpaceRun(t[m + 1..])
  }

  /** The matched text is whitespace and markers only. */
  lemma MatchIsMarkup(t: string)
    requires MatchHere(t)
    ensures forall i :: 0 <= i < MatchLen(t) ==> IsSpace(t[i]) || IsMarker(t[i])
  {
    var m := SpaceRun(t);
    SpaceRunIsSpace(t);
    SpaceRunIsSpace(t[m + 1..]);
    assert forall i :: m + 1 <= i < MatchLen(t) ==> t[i] == t[m + 1..][i - (m + 1)];
  }

  /** The global, multi-line replacement of `^\s*[-•*]\s*` by "• ", on the
      rest `t` of the text; `lineStart` says whether `^` holds where `t`
      begins (at the start of the text, or just after a line terminator).
      The search goes left to right: a match is replaced by "• " and the
      search resumes after it, where `^` holds if the match ended with a line
      terminator (the trailing `\s*` can take one); anything else is copied
      one character at a time. */
  function Bullets(t: string, lineStart: bool): string
    decreases |t|
  {
    if t == [] then []
    else if lineStart && MatchHere(t) then
      var e := MatchLen(t);
      "• " + Bullets(t[e..], IsLineTerminator(t[e - 1]))
    else [t[0]] + Bullets(t[1..], IsLineTerminator(t[0]))
  }

  /** A match holds no letter: it is whitespace and markers. */
  lemma MatchLetters(t: string)
    requires MatchHere(t)
    ensures Letters(t) == Letters(t[MatchLen(t)..])
  {
    var e := MatchLen(t);
    MatchIsMarkup(t);
    assert forall i :: 0 <= i < e ==> t[..e][i] == t[i];
    NoLettersInMarkup(t[..e]);
    assert t == t[..e] + t[e..];
    LettersAppend(t[..e], t[e..]);
  }

  lemma BulletsMatchStep(t: string)
    requires MatchHere(t)
    ensures var e := MatchLen(t);
            Bullets(t, true) == "• " + Bullets(t[e..], IsLineTerminator(t[e - 1]))
  {
  }

  lemma BulletsCopyStep(t: string, lineStart: bool)
    requires t != [] && !(lineStart && MatchHere(t))
    ensures Bullets(t, lineStart) == [t[0]] + Bullets(t[1..], IsLineTerminator(t[0]))
  {
  }

  lemma BulletHasNoLetter()
    ensures Letters("• ") == []
  {
    NoLettersInMarkup("• ");
  }

  /** The scan loses no letter and adds none: a match is whitespace and
      markers, and "• " holds no letter either. */
  lemma {:induction false} BulletsKeepLetters(t: string, lineStart: bool)
    ensures Letters(Bullets(t, lineStart)) == Letters(t)
    decreases |t|
  {
    if t != [] {
      if lineStart && MatchHere(t) {
        var e := MatchLen(t);
        var rest := Bullets(t[e..], IsLineTerminator(t[e - 1]));
        BulletsMatchStep(t);
        MatchLetters(t);
        BulletsKeepLetters(t[e..], IsLineTerminator(t[e - 1]));
        LettersAppend("• ", rest);
        BulletHasNoLetter();
        assert Letters(Bullets(t, lineStart)) == Letters(rest);
      } else {
        var rest := Bullets(t[1..], IsLineTerminator(t[0]));
        BulletsCopyStep(t, lineStart);
        BulletsKeepLetters(t[1..], IsLineTerminator(t[0]));
        assert t == [t[0]] + t[1..];
        LettersAppend([t[0]], t[1..]);
        LettersAppend([t[0]], rest);
      }
    }
  }

  /** Trimming the scanned text keeps the letters of the pasted text. */
  lemma FormattedLetters(value: string)
    ensures Letters(Trim(Bullets(ReplaceCrlf(value), true))) == Letters(value)
  {
    BulletsKeepLetters(ReplaceCrlf(value), true);
    TrimKeepsLetters(Bullets(ReplaceCrlf(value), true));
  }

  /** The value stored for pasted list text: no whitespace at either end,
      and not a letter of the text lost or added. */
  function FormatPasted(value: string): (r: string)
    ensures r == [] || (!IsSpace(r[0]) && !IsSpace(r[|r| - 1]))
    ensures Letters(r) == Letters(value)
  {
    FormattedLetters(value);
    Trim(Bullets(ReplaceCrlf(value), true))
  }

  // The formatter line by line.

  /** The line holds a character that is neither whitespace nor a marker. */
  predicate HasText(line: string) {
    exists i :: 0 <= i < |line| && !IsSpace(line[i]) && !IsMarker(line[i])
  }

  predicate NoLineTerminator(s: string) {
    forall i :: 0 <= i < |s| ==> !IsLineTerminator(s[i])
  }

  /** One line as the formatter leaves it: a leading marker, with the
      whitespace around it, becomes "• "; any other line is kept. */
  function BulletLine(line: string): string {
    if MatchHere(line) then "• " + line[MatchLen(line)..] else line
  }

  function BulletLines(lines: seq<string>): seq<string> {
    seq(|lines|, i requires 0 <= i < |lines| => BulletLine(lines[i]))
  }

  /** A whitespace run that stops inside `l` does not see what follows. */
  lemma {:induction false} SpaceRunPrefix(l: string, r: string, j: nat)
    requires j < |l| && !IsSpace(l[j])
    ensures SpaceRun(l + r) == SpaceRun(l)
    decreases j
  {
    assert (l + r)[0] == l[0];
    if IsSpace(l[0]) {
      DropAppend(l, r, 1);
      SpaceRunPrefix(l[1..], r, j - 1);
    }
  }

  /** On a line that has text, whether the pattern matches, and how much it
      takes, does not depend on what follows the line. */
  lemma MatchPrefix(l: string, r: string, j: nat)
    requires j < |l| && !IsSpace(l[j]) && !IsMarker(l[j])
    ensures MatchHere(l + r) == MatchHere(l)
    ensures MatchHere(l) ==> MatchLen(l + r) == MatchLen(l)
  {
    SpaceRunPrefix(l, r, j);
    SpaceRunIsSpace(l);
    var n := SpaceRun(l);
    assert n <= j;
    assert (l + r)[n] == l[n];
    if IsMarker(l[n]) {
      DropAppend(l, r, n + 1);
      SpaceRunPrefix(l[n + 1..], r, j - (n + 1));
    }
  }

  /** Inside a line, away from its start, nothing matches: the scan copies
      up to the line's end. */
  lemma {:induction false} BulletsCopy(u: string, r: string)
    requires NoLineTerminator(u)
    ensures Bullets(u + r, false) == u + Bullets(r, false)
    decreases |u|
  {
    if u == [] {
      assert u + r == r;
    } else {
      DropAppend(u, r, 1);
      assert (u + r)[0] == u[0] && !IsLineTerminator(u[0]);
      BulletsCopy(u[1..], r);
      SeqAppendAssoc([u[0]], u[1..], Bullets(r, false));
      assert [u[0]] + u[1..] == u;
    }
  }

  /** A line whose start matches: the match becomes "• " and the rest of
      the line is copied. */
  lemma BulletsLineMatch(l: string, r: string)
    requires NoLineTerminator(l) && MatchHere(l)
    requires MatchHere(l + r) && MatchLen(l + r) == MatchLen(l)
    ensures Bullets(l + r, true) == "• " + l[MatchLen(l)..] + Bullets(r, false)
  {
    var e := MatchLen(l);
    BulletsMatchStep(l + r);
    DropAppend(l, r, e);
    assert (l + r)[e - 1] == l[e - 1];
    BulletsCopy(l[e..], r);
    SeqAppendAssoc("• ", l[e..], Bullets(r, false));
  }

  /** A line whose start does not match is copied whole. */
  lemma BulletsLineCopy(l: string, r: string)
    requires NoLineTerminator(l) && l != [] && !MatchHere(l + r)
    ensures Bullets(l + r, true) == l + Bullets(r, false)
  {
    BulletsCopyStep(l + r, true);
    DropAppend(l, r, 1);
    assert (l + r)[0] == l[0];
    BulletsCopy(l[1..], r);
    SeqAppendAssoc([l[0]], l[1..], Bullets(r, false));
    assert [l[0]] + l[1..] == l;
  }

  /** The scan of a line that has text, or that ends the text, gives the
      line's `BulletLine` and goes on after the line, where `^` does not
      hold. */
  lemma BulletsLine(l: string, r: string)
    requires NoLineTerminator(l)
    requires r == [] || HasText(l)
    ensures Bullets(l + r, true) == BulletLine(l) + Bullets(r, false)
  {
    if l == [] {
      assert l + r == r;
    } else {
      if r == [] {
        assert l + r == l;
      } else {
        var j :| 0 <= j < |l| && !IsSpace(l[j]) && !IsMarker(l[j]);
        MatchPrefix(l, r, j);
      }
      if MatchHere(l) {
        BulletsLineMatch(l, r);
      } else {
        BulletsLineCopy(l, r);
      }
    }
  }

  /** A line break is copied, and `^` holds after it. */
  lemma BulletsNewline(r: string)
    ensures Bullets("\n" + r, false) == "\n" + Bullets(r, true)
  {
    assert ("\n" + r)[0] == '\n' && ("\n" + r)[1..] == r;
  }

  /** The global, multi-line replacement works line by line, as long as
      every line but the last has text: each line becomes its `BulletLine`.
      (A blank or marker-only line is different: `\s*` runs on across the
      line break, into the next line.) */
  lemma {:induction false} BulletsByLines(lines: seq<string>)
    requires |lines| >= 1
    requires forall i :: 0 <= i < |lines| ==> NoLineTerminator(lines[i])
    requires forall i :: 0 <= i < |lines| - 1 ==> HasText(lines[i])
    ensures Bullets(Join(lines, '\n'), true) == Join(BulletLines(lines), '\n')
    decreases |lines|
  {
    var bl := BulletLines(lines);
    if |lines| == 1 {
      BulletsLine(lines[0], []);
      assert lines[0] + [] == lines[0];
    } else {
      var rest := lines[1..];
      assert forall i :: 0 <= i < |rest| ==> rest[i] == lines[i + 1];
      BulletsByLines(rest);
      var t := "\n" + Join(rest, '\n');
      JoinCons(lines, '\n');
      SeqAppendAssoc(lines[0], "\n", Join(rest, '\n'));
      JoinCons(bl, '\n');
      BulletsLine(lines[0], t);
      BulletsNewline(Join(rest, '\n'));
      assert bl[1..] == BulletLines(rest);
      SeqAppendAssoc(BulletLine(lines[0]), "\n", Bullets(Join(rest, '\n'), true));
    }
  }

  /** An empty line before a marker line disappears: the leading `\s*`
      takes the line break as well. */
  lemma BlankLineBeforeMarker()
    ensures Bullets("\n- b", true) == "• b"
  {
    var t := "\n- b";
    assert SpaceRun(t[2..]) == 1 by {
      assert t[2..] == " b" && " b"[1..] == "b";
    }
    assert SpaceRun(t) == 1 by {
      assert t[1..] == "- b";
    }
    assert MatchHere(t) && MatchLen(t) == 3;
    assert t[3..] == "b";
    assert Bullets("b", false) == "b" by {
      assert "b"[1..] == [];
    }
  }

  /** Every CR of `s` starts a CR LF pair. */
  predicate CrOnlyInPairs(s: string) {
    forall i :: 0 <= i < |s| && s[i] == '\r' ==> i + 1 < |s| && s[i + 1] == '\n'
  }

  lemma {:induction false} ReplaceCrlfNoCr(s: string)
    requires CrOnlyInPairs(s)
    ensures '\r' !in ReplaceCrlf(s)
    decreases |s|
  {
    if s != [] {
      var k := if |s| >= 2 && s[0] == '\r' && s[1] == '\n' then 2 else 1;
      assert forall i :: 0 <= i < |s| - k ==> s[k..][i] == s[i + k];
      ReplaceCrlfNoCr(s[k..]);
    }
  }

  /** The stored text of a paste, line by line: the text with CR LF pairs
      made LF is cut at each LF, each line becomes its `BulletLine`, and the
      joined result is trimmed. This holds for text whose CRs all belong to
      CR LF pairs, that has no other line terminator, and where every line
      but the last has text. */
  lemma FormatPastedByLines(value: string)
    requires CrOnlyInPairs(value) && '\U{2028}' !in value && '\U{2029}' !in value
    requires var lines := Split(ReplaceCrlf(value), '\n');
      forall i :: 0 <= i < |lines| - 1 ==> HasText(lines[i])
    ensures FormatPasted(value) == Trim(Join(BulletLines(Split(ReplaceCrlf(value), '\n')), '\n'))
  {
    var n := ReplaceCrlf(value);
    var lines := Split(n, '\n');
    ReplaceCrlfNoCr(value);
    ReplaceCrlfChars(value);
    SplitChars(n, '\n');
    JoinSplit(n, '\n');
    BulletsByLines(lines);
  }

  /** Without a marker character nothing matches: the scan copies. */
  lemma {:induction false} BulletsNoMarker(t: string, lineStart: bool)
    requires forall i :: 0 <= i < |t| ==> !IsMarker(t[i])
    ensures Bullets(t, lineStart) == t
    decreases |t|
  {
    if t != [] {
      BulletsNoMarker(t[1..], IsLineTerminator(t[0]));
      assert [t[0]] + t[1..] == t;
    }
  }

  lemma {:induction false} ReplaceCrlfNoMarker(s: string)
    requires forall i :: 0 <= i < |s| ==> !IsMarker(s[i])
    ensures forall i :: 0 <= i < |ReplaceCrlf(s)| ==> !IsMarker(ReplaceCrlf(s)[i])
    decreases |s|
  {
    if s != [] {
      if |s| >= 2 && s[0] == '\r' && s[1] == '\n' {
        ReplaceCrlfNoMarker(s[2..]);
      } else {
        ReplaceCrlfNoMarker(s[1..]);
      }
    }
  }

  /** Pasted text without any marker character is only normalised: CR LF
      pairs become LF and the ends are trimmed. */
  lemma NoMarkerOnlyNormalized(value: string)
    requires forall i :: 0 <= i < |value| ==> !IsMarker(value[i])
    ensures FormatPasted(value) == Trim(ReplaceCrlf(value))
  {
    ReplaceCrlfNoMarker(value);
    BulletsNoMarker(ReplaceCrlf(value), true);
  }

  lemma {:induction false} TrimStartKeepsNonSpaceHead(s: string)
    requires s != [] && !IsSpace(s[0])
    ensures TrimStart(s) == s
  {
  }

  lemma {:induction false} TrimEndKeepsNonSpaceHead(s: string)
    requires s != [] && !IsSpace(s[0])
    ensures TrimEnd(s) != [] && TrimEnd(s)[0] == s[0]
    decreases |s|
  {
    if IsSpace(s[|s| - 1]) {
      assert |s| > 1;
      TrimEndKeepsNonSpaceHead(s[..|s| - 1]);
    }
  }

  /** Pasted text that opens with a marker (after any whitespace) is stored
      starting with the bullet "•". */
  lemma LeadingMarkerBecomesBullet(value: string)
    requires MatchHere(ReplaceCrlf(value))
    ensures FormatPasted(value) != [] && FormatPasted(value)[0] == '•'
  {
    var bulleted := Bullets(ReplaceCrlf(value), true);
    assert bulleted[0] == '•';
    TrimStartKeepsNonSpaceHead(bulleted);
    TrimEndKeepsNonSpaceHead(bulleted);
  }

  // ---------------------------------------------------------------------
  // Bullet rendering on the job detail page.

  /** `text.split(/\r?\n/)`: the separator is LF, together with a CR just
      before it. */
  function SplitLines(s: string): (lines: seq<string>)
    ensures |lines| >= 1
    ensures forall i :: 0 <= i < |lines| ==> '\n' !in lines[i]
    decreases |s|
  {
    if s == [] then [""]
    else if |s| >= 2 && s[0] == '\r' && s[1] == '\n' then [""] + SplitLines(s[2..])
    else if s[0] == '\n' then [""] + SplitLines(s[1..])
    else
      var rest := SplitLines(s[1..]);
      [[s[0]] + rest[0]] + rest[1..]
  }

  /** A line without its one trailing CR, if it has one. */
  function DropCr(line: string): string {
    if line != [] && line[|line| - 1] == '\r' then line[..|line| - 1] else line
  }

  /** `lines` is `parts` with one trailing CR taken from every part but the
      last. */
  predicate LinesMatch(lines: seq<string>, parts: seq<string>) {
    && |lines| == |parts|
    && forall i :: 0 <= i < |lines| ==>
         lines[i] == if i < |lines| - 1 then DropCr(parts[i]) else parts[i]
  }

  lemma LinesMatchCons(line: string, part: string, lines: seq<string>, parts: seq<string>)
    requires LinesMatch(lines, parts) && lines != []
    requires line == DropCr(part)
    ensures LinesMatch([line] + lines, [part] + parts)
  {
    var l2 := [line] + lines;
    var p2 := [part] + parts;
    forall i | 0 <= i < |l2| ensures l2[i] == if i < |l2| - 1 then DropCr(p2[i]) else p2[i] {
      if i > 0 {
        assert l2[i] == lines[i - 1] && p2[i] == parts[i - 1];
      }
    }
  }

  lemma LinesMatchExtendHead(c: char, lines: seq<string>, parts: seq<string>)
    requires LinesMatch(lines, parts) && lines != []
    requires |lines| > 1 ==> c != '\r' || parts[0] != []
    ensures LinesMatch([[c] + lines[0]] + lines[1..], [[c] + parts[0]] + parts[1..])
  {
    var l2 := [[c] + lines[0]] + lines[1..];
    var p2 := [[c] + parts[0]] + parts[1..];
    if |lines| > 1 {
      assert l2[0] == DropCr(p2[0]) by {
        if parts[0] != [] && parts[0][|parts[0]| - 1] == '\r' {
          assert ([c] + parts[0])[..|parts[0]|] == [c] + parts[0][..|parts[0]| - 1];
        }
      }
    }
    forall i | 0 <= i < |l2| ensures l2[i] == if i < |l2| - 1 then DropCr(p2[i]) else p2[i] {
      if i > 0 {
        assert l2[i] == lines[i] && p2[i] == parts[i];
      }
    }
  }

  /** The regular-expression split is the split on LF in which every line
      but the last loses one trailing CR. */
  lemma {:induction false} SplitLinesIsSplit(s: string)
    ensures LinesMatch(SplitLines(s), Split(s, '\n'))
    decreases |s|
  {
    if s == [] {
    } else if |s| >= 2 && s[0] == '\r' && s[1] == '\n' {
      SplitLinesIsSplit(s[2..]);
      var rest := Split(s[2..], '\n');
      assert s[1..][1..] == s[2..];
      var r1 := Split(s[1..], '\n');
      assert r1 == [""] + rest;
      assert r1[0] == "" && r1[1..] == rest;
      assert ['\r'] + "" == "\r";
      assert Split(s, '\n') == ["\r"] + rest;
      LinesMatchCons("", "\r", SplitLines(s[2..]), rest);
    } else if s[0] == '\n' {
      SplitLinesIsSplit(s[1..]);
      LinesMatchCons("", "", SplitLines(s[1..]), Split(s[1..], '\n'));
    } else {
      var t := s[1..];
      SplitLinesIsSplit(t);
      if |SplitLines(t)| > 1 && s[0] == '\r' {
        assert t != [] && t[0] != '\n';
        assert Split(t, '\n')[0] != [];
      }
      LinesMatchExtendHead(s[0], SplitLines(t), Split(t, '\n'));
    }
  }

  predicate IsLeadChar(c: char) {
    c == '-' || c == '•' || IsSpace(c)
  }

  /** Replacing `^[-•\s]*` by "": drop the leading run of dashes, bullets and
      whitespace. */
  function StripLead(s: string): (r: string)
    ensures |r| <= |s| && r == s[|s| - |r|..]
    ensures r == [] || !IsLeadChar(r[0])
    ensures forall i :: 0 <= i < |s| - |r| ==> IsLeadChar(s[i])
    ensures Letters(r) == Letters(s)
    decreases |s|
  {
    if s != [] && IsLeadChar(s[0]) then
      assert Letters(s) == Letters(s[1..]);
      StripLead(s[1..])
    else s
  }

  /** Starts with neither a marker nor whitespace and ends without
      whitespace. */
  predicate ItemShape(r: string) {
    r == [] || (!IsLeadChar(r[0]) && !IsSpace(r[|r| - 1]))
  }

  /** The text of one bullet: the trimmed line without its leading markers.
      It starts with neither a marker nor whitespace, ends without
      whitespace, and holds all of the line's text. */
  function Item(line: string): (r: string)
    ensures ItemShape(r)
    ensures Letters(r) == Letters(line)
  {
    TrimKeepsLetters(line);
    StripLead(Trim(line))
  }

  /** The number of lines that are not blank. */
  function NonBlankCount(lines: seq<string>): nat
    decreases |lines|
  {
    if lines == [] then 0 else (if Trim(lines[0]) != "" then 1 else 0) + NonBlankCount(lines[1..])
  }

  lemma ShapesCons(item: string, rest: seq<string>)
    requires ItemShape(item)
    requires forall k :: 0 <= k < |rest| ==> ItemShape(rest[k])
    ensures forall k :: 0 <= k < |[item] + rest| ==> ItemShape(([item] + rest)[k])
  {
    var items := [item] + rest;
    forall k | 0 <= k < |items|
      ensures ItemShape(items[k])
    {
      if k > 0 {
        assert items[k] == rest[k - 1];
      }
    }
  }

  /** `.filter(line => line.trim() !== "").map(...)`: one item for every line
      that is not blank. */
  function Items(lines: seq<string>): (items: seq<string>)
    ensures |items| == NonBlankCount(lines)
    ensures forall k :: 0 <= k < |items| ==> ItemShape(items[k])
    decreases |lines|
  {
    if lines == [] then []
    else
      var rest := Items(lines[1..]);
      if Trim(lines[0]) == "" then rest
      else
        ShapesCons(Item(lines[0]), rest);
        [Item(lines[0])] + rest
  }

  /** The filter and the map work line by line: the items of two runs of
      lines are the items of the first followed by those of the second. */
  lemma {:induction false} ItemsAppend(a: seq<string>, b: seq<string>)
    ensures Items(a + b) == Items(a) + Items(b)
    decreases |a|
  {
    if a == [] {
      assert a + b == b;
    } else {
      assert (a + b)[0] == a[0] && (a + b)[1..] == a[1..] + b;
      ItemsAppend(a[1..], b);
      if Trim(a[0]) != "" {
        SeqAppendAssoc([Item(a[0])], Items(a[1..]), Items(b));
      }
    }
  }

  /** A single line gives no item when blank and its `Item` otherwise. */
  lemma ItemsSingle(line: string)
    ensures Items([line]) == if Trim(line) == "" then [] else [Item(line)]
  {
    assert [line][1..] == [];
  }

  /** `renderBullets(text)`: the items of the lines of `text`, so one bullet
      for every line that is not blank. Splitting on `\r?\n` gives the same
      bullets as splitting on LF alone: the optional CR only ever removes
      whitespace that `trim` removes anyway. */
  function RenderBullets(text: string): (items: seq<string>)
    ensures items == Items(Split(text, '\n'))
    ensures |items| == NonBlankCount(Split(text, '\n'))
    ensures forall k :: 0 <= k < |items| ==> ItemShape(items[k])
  {
    SplitLinesIsSplit(text);
    ItemsOfMatchingLines(SplitLines(text), Split(text, '\n'));
    Items(SplitLines(text))
  }

  /** Bullets are rendered line by line: text joined at an LF renders as the
      bullets of the first part followed by those of the second. */
  lemma RenderBulletsAppend(a: string, b: string)
    ensures RenderBullets(a + "\n" + b) == RenderBullets(a) + RenderBullets(b)
  {
    SplitAppendSep(a, b, '\n');
    ItemsAppend(Split(a, '\n'), Split(b, '\n'));
  }

  /** A single line renders as no bullet when it is blank and as its `Item`
      otherwise. */
  lemma RenderBulletsLine(line: string)
    requires '\n' !in line
    ensures RenderBullets(line) == if Trim(line) == "" then [] else [Item(line)]
  {
    SplitNoSep(line, '\n');
    ItemsSingle(line);
  }

  lemma {:induction false} TrimStartSnoc(x: string, c: char)
    requires IsSpace(c)
    ensures TrimStart(x + [c]) == if AllSpace(x) then [] else TrimStart(x) + [c]
    decreases |x|
  {
    var xc := x + [c];
    if x == [] {
      assert xc == [c] && xc[1..] == [];
    } else if !IsSpace(x[0]) {
      assert xc[0] == x[0];
      assert TrimStart(xc) == xc && TrimStart(x) == x;
    } else {
      assert xc[0] == x[0] && xc[1..] == x[1..] + [c];
      assert TrimStart(xc) == TrimStart(x[1..] + [c]);
      assert TrimStart(x) == TrimStart(x[1..]);
      assert AllSpace(x) <==> AllSpace(x[1..]);
      TrimStartSnoc(x[1..], c);
    }
  }


  lemma AllSpaceTrimStart(x: string)
    requires AllSpace(x)
    ensures TrimStart(x) == []
    decreases |x|
  {
    if x != [] {
      AllSpaceTrimStart(x[1..]);
    }
  }

  /** A trailing whitespace character never survives `trim`. */
  lemma {:induction false} TrimSnocSpace(x: string, c: char)
    requires IsSpace(c)
    ensures Trim(x + [c]) == Trim(x)
  {
    TrimStartSnoc(x, c);
    if AllSpace(x) {
      AllSpaceTrimStart(x);
    } else {
      var y := TrimStart(x);
      assert (y + [c])[..|y + [c]| - 1] == y;
    }
  }

  /** So the CR that the regular expression drops never changes a bullet. */
  lemma DropCrSameTrim(line: string)
    ensures Trim(DropCr(line)) == Trim(line)
  {
    if line != [] && line[|line| - 1] == '\r' {
      assert line == line[..|line| - 1] + ['\r'];
      TrimSnocSpace(line[..|line| - 1], '\r');
    }
  }

  lemma {:induction false} ItemsOfMatchingLines(lines: seq<string>, parts: seq<string>)
    requires LinesMatch(lines, parts)
    ensures Items(lines) == Items(parts)
    decreases |lines|
  {
    if lines != [] {
      if |lines| > 1 {
        DropCrSameTrim(parts[0]);
      }
      assert LinesMatch(lines[1..], parts[1..]) by {
        forall i | 0 <= i < |lines[1..]|
          ensures lines[1..][i] == if i < |lines[1..]| - 1 then DropCr(parts[1..][i]) else parts[1..][i]
        {
          assert lines[1..][i] == lines[i + 1] && parts[1..][i] == parts[i + 1];
        }
      }
      ItemsOfMatchingLines(lines[1..], parts[1..]);
    }
  }

  /** The concatenation of a list of strings. */
  function Concat(xs: seq<string>): string
    decreases |xs|
  {
    if xs == [] then [] else xs[0] + Concat(xs[1..])
  }

  lemma {:induction false} ItemsKeepLetters(lines: seq<string>)
    ensures Letters(Concat(Items(lines))) == Letters(Concat(lines))
    decreases |lines|
  {
    if lines != [] {
      ItemsKeepLetters(lines[1..]);
      LettersAppend(lines[0], Concat(lines[1..]));
      if Trim(lines[0]) == "" {
        NoLettersInSpace(lines[0]);
      } else {
        LettersAppend(Item(lines[0]), Concat(Items(lines[1..])));
      }
    }
  }

  lemma {:induction false} JoinLetters(parts: seq<string>)
    ensures Letters(Join(parts, '\n')) == Letters(Concat(parts))
    decreases |parts|
  {
    if |parts| == 1 {
      assert parts[1..] == [];
      assert Join(parts, '\n') == parts[0];
      assert Concat(parts) == parts[0] + Concat(parts[1..]);
      assert parts[0] + [] == parts[0];
    } else if |parts| > 1 {
      JoinLetters(parts[1..]);
      LettersAppend(parts[0] + ['\n'], Join(parts[1..], '\n'));
      LettersAppend(parts[0], ['\n']);
      LettersAppend(parts[0], Concat(parts[1..]));
    }
  }

  /** The bullets hold every letter of the text, in order: rendering drops
      only whitespace, blank lines and leading markers. */
  lemma RenderBulletsKeepLetters(text: string)
    ensures Letters(Concat(RenderBullets(text))) == Letters(text)
  {
    ItemsKeepLetters(Split(text, '\n'));
    JoinLetters(Split(text, '\n'));
    JoinSplit(text, '\n');
  }

  /** A line holding only a dash passes the blank-line filter and renders as
      an empty bullet. */
  lemma MarkerOnlyLine()
    ensures RenderBullets("-") == [""]
  {
    var s := "-";
    assert s[1..] == "";
    assert SplitLines(s[1..]) == [""];
    assert SplitLines(s) == [[s[0]] + ""] + [""][1..];
    assert [s[0]] + "" == "-" && [""][1..] == [];
    assert SplitLines(s) == ["-"];
    assert TrimStart("-") == "-";
    assert TrimEnd("-") == "-";
    assert StripLead("-") == StripLead("");
  }

  // ---------------------------------------------------------------------
  // The job type on the detail page.

  /** `type.replace("-", " ")`: a string pattern, so only the first dash
      becomes a space and every other character is kept. */
  function ReplaceFirstDash(s: string): (r: string)
    ensures |r| == |s|
    ensures forall i :: 0 <= i < |s| ==>
              r[i] == if s[i] == '-' && '-' !in s[..i] then ' ' else s[i]
    decreases |s|
  {
    if s == [] then []
    else if s[0] == '-' then
      assert forall i :: 0 < i < |s| ==> s[..i][0] == '-';
      " " + s[1..]
    else
      var rest := ReplaceFirstDash(s[1..]);
      assert forall i :: 0 < i < |s| ==> s[..i] == [s[0]] + s[1..][..i - 1];
      [s[0]] + rest
  }
}

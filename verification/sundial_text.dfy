/** How the dashboard's event list shows an application name: Python's
    whitespace split, the cut to twenty words, and the tooltip rule. */
module SundialText {
  import opened Common

  /** Python's `str.isspace` for one character. */
  predicate IsSpace(c: char)
  {
    c == ' ' || '\t' <= c <= '\r' || '\U{1C}' <= c <= '\U{1F}' || c == '\U{85}' || c == '\U{A0}' ||
    c == '\U{1680}' || '\U{2000}' <= c <= '\U{200A}' || c == '\U{2028}' || c == '\U{2029}' ||
    c == '\U{202F}' || c == '\U{205F}' || c == '\U{3000}'
  }

  predicate NoSpace(w: string)
  {
    forall i :: 0 <= i < |w| ==> !IsSpace(w[i])
  }

  /** `s` without its leading whitespace. */
  function DropSpaces(s: string): (r: string)
    ensures |r| <= |s| && r == s[|s| - |r|..]
    ensures r == [] || !IsSpace(r[0])
  {
    if s != [] && IsSpace(s[0]) then DropSpaces(s[1..]) else s
  }

  /** The longest prefix of `s` that holds no whitespace. */
  function WordPrefix(s: string): (r: string)
    ensures |r| <= |s| && r == s[..|r|] && NoSpace(r)
    ensures |r| < |s| ==> IsSpace(s[|r|])
  {
    if s == [] || IsSpace(s[0]) then [] else [s[0]] + WordPrefix(s[1..])
  }

  /** `s.split()`: the maximal runs of non-whitespace characters, in order. */
  function Words(s: string): seq<string>
    decreases |s|
  {
    var t := DropSpaces(s);
    if t == [] then []
    else
      var w := WordPrefix(t);
      [w] + Words(t[|w|..])
  }

  /** Every word is a nonempty run without whitespace. */
  lemma {:induction false} WordsAreWords(s: string)
    ensures forall i :: 0 <= i < |Words(s)| ==> Words(s)[i] != [] && NoSpace(Words(s)[i])
    decreases |s|
  {
    var t := DropSpaces(s);
    if t != [] {
      var w := WordPrefix(t);
      WordsAreWords(t[|w|..]);
    }
  }

  /** `sep.join(ws)`. */
  function Join(ws: seq<string>, sep: string): (r: string)
  {
    if |ws| == 0 then "" else if |ws| == 1 then ws[0] else ws[0] + sep + Join(ws[1..], sep)
  }

  const MaxWords := 20
  const Ellipsis := " ..."

  /** The label text for an application name: names of more than twenty
      words become their first twenty words joined by `-` and followed by
      " ..."; other names are shown as they are. */
  function Truncate(app: string): string
  {
    var ws := Words(app);
    if |ws| > MaxWords then Join(ws[..MaxWords], "-") + Ellipsis else app
  }

  /** Labels this many characters long or shorter carry no tooltip. */
  const TooltipThreshold := 15

  /** A label in the event list: its text, and the tooltip it carries. */
  datatype AppLabel = AppLabel(text: string, tooltip: Option<string>)

  /** The label made for an event's application name. */
  function LabelFor(app: string): AppLabel
  {
    var text := Truncate(app);
    AppLabel(text, if |text| > TooltipThreshold then Some(app) else None)
  }

  // ---------------------------------------------------------------------
  // Properties of the split and the cut.

  lemma {:induction false} WordPrefixOf(w: string, rest: string)
    requires NoSpace(w) && (rest == [] || IsSpace(rest[0]))
    ensures WordPrefix(w + rest) == w
    decreases |w|
  {
    if w != [] {
      assert (w + rest)[1..] == w[1..] + rest;
      WordPrefixOf(w[1..], rest);
    } else {
      assert w + rest == rest;
    }
  }

  /** A word followed by whitespace (or nothing) is the first word. */
  lemma {:induction false} WordsOfWord(w: string, rest: string)
    requires w != [] && NoSpace(w) && (rest == [] || IsSpace(rest[0]))
    ensures Words(w + rest) == [w] + Words(rest)
  {
    var s := w + rest;
    assert DropSpaces(s) == s;
    WordPrefixOf(w, rest);
    assert s[|w|..] == rest;
  }

  lemma {:induction false} JoinNoSpace(ws: seq<string>, sep: string)
    requires NoSpace(sep) && forall i :: 0 <= i < |ws| ==> NoSpace(ws[i])
    ensures NoSpace(Join(ws, sep))
    decreases |ws|
  {
    if |ws| > 1 {
      JoinNoSpace(ws[1..], sep);
      var tail := Join(ws[1..], sep);
      var r := ws[0] + sep + tail;
      forall i | 0 <= i < |r|
        ensures !IsSpace(r[i])
      {
        if i < |ws[0]| {
          assert r[i] == ws[0][i];
        } else if i < |ws[0]| + |sep| {
          assert r[i] == sep[i - |ws[0]|];
        } else {
          assert r[i] == tail[i - |ws[0]| - |sep|];
        }
      }
    }
  }

  lemma {:induction false} JoinLength(ws: seq<string>, sep: string)
    requires |ws| > 0 && forall i :: 0 <= i < |ws| ==> ws[i] != []
    ensures |Join(ws, sep)| >= |ws| + (|ws| - 1) * |sep|
    decreases |ws|
  {
    if |ws| > 1 {
      JoinLength(ws[1..], sep);
    }
  }

  /** Words joined by dashes make one word. */
  lemma DashJoinIsWord(ws: seq<string>)
    requires |ws| > 0 && forall i :: 0 <= i < |ws| ==> ws[i] != [] && NoSpace(ws[i])
    ensures Join(ws, "-") != [] && NoSpace(Join(ws, "-"))
  {
    assert !IsSpace('-');
    JoinNoSpace(ws, "-");
    JoinLength(ws, "-");
  }

  /** A cut label reads as exactly two words: the first twenty words of the
      name joined by dashes, then "...". */
  lemma {:induction false} TruncatedWords(app: string)
    requires |Words(app)| > MaxWords
    ensures var head := Join(Words(app)[..MaxWords], "-");
      head != [] && Words(Truncate(app)) == [head, "..."]
  {
    var ws := Words(app)[..MaxWords];
    WordsAreWords(app);
    DashJoinIsWord(ws);
    WordThenEllipsis(Join(ws, "-"));
  }

  lemma WordThenEllipsis(head: string)
    requires head != [] && NoSpace(head)
    ensures Words(head + Ellipsis) == [head, "..."]
  {
    assert Ellipsis[0] == ' ';
    WordsOfWord(head, Ellipsis);
    EllipsisWords();
  }

  lemma EllipsisWords()
    ensures Words(Ellipsis) == ["..."]
  {
    var dots := "...";
    assert !IsSpace(dots[0]) && !IsSpace(dots[1]) && !IsSpace(dots[2]);
    assert DropSpaces(Ellipsis) == dots by {
      assert Ellipsis[1..] == dots;
    }
    WordPrefixOf(dots, "");
    assert dots + "" == dots;
    assert dots[|dots|..] == "";
  }

  /** Every label has at most twenty words, and cutting a label again leaves
      it as it is. */
  lemma {:induction false} TruncateIdempotent(app: string)
    ensures |Words(Truncate(app))| <= MaxWords
    ensures Truncate(Truncate(app)) == Truncate(app)
  {
    if |Words(app)| > MaxWords {
      TruncatedWords(app);
    }
  }

  /** A name that was cut is always available in full as the tooltip: a cut
      label is longer than fifteen characters. */
  lemma {:induction false} CutLabelHasTooltip(app: string)
    requires |Words(app)| > MaxWords
    ensures LabelFor(app).tooltip == Some(app)
    ensures |LabelFor(app).text| > TooltipThreshold
  {
    var ws := Words(app)[..MaxWords];
    WordsAreWords(app);
    JoinLength(ws, "-");
  }

  /** Nothing of a name is ever hidden: a label without a tooltip shows the
      name in full, and a tooltip always holds the full name. */
  lemma {:induction false} NothingHiddenWithoutTooltip(app: string)
    ensures LabelFor(app).tooltip == None ==> LabelFor(app).text == app
    ensures LabelFor(app).tooltip != None ==> LabelFor(app).tooltip == Some(app)
  {
    if |Words(app)| > MaxWords {
      CutLabelHasTooltip(app);
    }
  }

  /** A name of at most fifteen characters is shown as it is, without a
      tooltip. */
  lemma {:induction false} ShortNameShownPlain(app: string)
    requires |app| <= TooltipThreshold
    ensures LabelFor(app) == AppLabel(app, None)
  {
    WordsCount(app);
  }

  /** A string has no more words than characters. */
  lemma {:induction false} WordsCount(s: string)
    ensures |Words(s)| <= |s|
    decreases |s|
  {
    var t := DropSpaces(s);
    if t != [] {
      var w := WordPrefix(t);
      WordsCount(t[|w|..]);
    }
  }
}

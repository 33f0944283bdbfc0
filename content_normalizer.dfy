/**
 * The inline-content normalisation of `OverthereExecute.execute()`: trim the text, turn every
 * CR LF into LF, then turn every LF into CR LF. The two replacements are Java's `replaceAll`,
 * which scans left to right and replaces non-overlapping matches.
 */
module ContentNormalizer {
  import opened Text

  /** `replaceAll("\\r\\n", "\n")`. */
  function Collapse(s: string): string
  {
    if s == [] then []
    else if |s| >= 2 && s[0] == '\r' && s[1] == '\n' then "\n" + Collapse(s[2..])
    else [s[0]] + Collapse(s[1..])
  }

  function ExpandChar(c: char): string
  {
    if c == '\n' then "\r\n" else [c]
  }

  /** `replaceAll("\\n", "\r\n")`. */
  function Expand(s: string): string
  {
    if s == [] then [] else ExpandChar(s[0]) + Expand(s[1..])
  }

  /** The text that is encoded and written to the remote file. */
  function Normalize(text: string): string
  {
    Expand(Collapse(Trim(text)))
  }

  lemma {:induction false} ExpandAppend(a: string, b: string)
    ensures Expand(a + b) == Expand(a) + Expand(b)
    decreases |a|
  {
    if a != [] {
      assert (a + b)[0] == a[0];
      assert (a + b)[1..] == a[1..] + b;
      ExpandAppend(a[1..], b);
    } else {
      assert a + b == b;
    }
  }

  /** After the second replacement every LF is the second half of a CR LF pair. */
  lemma {:induction false} ExpandPairsEveryLf(s: string)
    ensures forall i :: 0 <= i < |Expand(s)| && Expand(s)[i] == '\n' ==> 0 < i && Expand(s)[i - 1] == '\r'
    decreases |s|
  {
    if s != [] {
      ExpandPairsEveryLf(s[1..]);
      ExpandHead(s[1..]);
      var h, t := ExpandChar(s[0]), Expand(s[1..]);
      assert Expand(s) == h + t;
      forall i | 0 <= i < |h + t| && (h + t)[i] == '\n'
        ensures 0 < i && (h + t)[i - 1] == '\r'
      {
        if i >= |h| {
          assert (h + t)[i] == t[i - |h|];
        }
      }
    }
  }

  lemma ExpandHead(s: string)
    ensures Expand(s) == [] || Expand(s)[0] != '\n'
  {
  }

  /** Collapsing undoes expanding: every CR LF the expansion made is folded back, and nothing else. */
  lemma {:induction false} CollapseExpand(z: string)
    ensures Collapse(Expand(z)) == z
    decreases |z|
  {
    if z != [] {
      var t := Expand(z[1..]);
      CollapseExpand(z[1..]);
      if z[0] == '\n' {
        assert Expand(z) == "\r\n" + t;
        assert (("\r\n" + t)[2..]) == t;
      } else {
        assert Expand(z) == [z[0]] + t;
        ExpandHead(z[1..]);
        assert ([z[0]] + t)[1..] == t;
      }
    }
  }

  lemma {:induction false} CollapseSnoc(w: string, c: char)
    requires c != '\n'
    ensures Collapse(w + [c]) == Collapse(w) + [c]
    decreases |w|
  {
    if w == [] {
    } else if |w| >= 2 && w[0] == '\r' && w[1] == '\n' {
      assert (w + [c])[2..] == w[2..] + [c];
      CollapseSnoc(w[2..], c);
    } else {
      assert (w + [c])[1..] == w[1..] + [c];
      CollapseSnoc(w[1..], c);
    }
  }

  /** A text without blank ends keeps its first and last char through both replacements. */
  lemma EndsSurvive(w: string)
    requires w == [] || (!IsBlank(w[0]) && !IsBlank(w[|w| - 1]))
    ensures var r := Expand(Collapse(w));
      (w == [] <==> r == []) && (r == [] || (r[0] == w[0] && r[|r| - 1] == w[|w| - 1]))
  {
    if w != [] {
      var last := w[|w| - 1];
      assert w == w[..|w| - 1] + [last];
      CollapseSnoc(w[..|w| - 1], last);
      ExpandAppend(Collapse(w[..|w| - 1]), [last]);
      assert Expand([last]) == [last];
      var c := Collapse(w);
      assert c[0] == w[0];
      assert c == [c[0]] + c[1..];
      ExpandAppend([c[0]], c[1..]);
    }
  }

  /** The normalised text has no blank first or last char, so a trailing newline is dropped. */
  lemma NormalizeTrimmed(text: string)
    ensures var r := Normalize(text); r == [] || (!IsBlank(r[0]) && !IsBlank(r[|r| - 1]))
  {
    EndsSurvive(Trim(text));
  }

  /** Every LF in the normalised text is preceded by CR. */
  lemma NormalizeCrlf(text: string)
    ensures var r := Normalize(text);
      forall i :: 0 <= i < |r| && r[i] == '\n' ==> 0 < i && r[i - 1] == '\r'
  {
    ExpandPairsEveryLf(Collapse(Trim(text)));
  }

  /** Normalising an already normalised text changes nothing. */
  lemma {:induction false} NormalizeIdempotent(text: string)
    ensures Normalize(Normalize(text)) == Normalize(text)
  {
    var z := Collapse(Trim(text));
    var y := Expand(z);
    assert Normalize(text) == y;
    NormalizeTrimmed(text);
    TrimOfTrimmed(y);
    CollapseExpand(z);
    assert Collapse(Trim(y)) == z;
  }

  /** A text without CR and LF passes both replacements unchanged. */
  lemma {:induction false} PlainTextUnchanged(s: string)
    requires forall i :: 0 <= i < |s| ==> s[i] != '\r' && s[i] != '\n'
    ensures Collapse(s) == s && Expand(s) == s
    decreases |s|
  {
    if s != [] {
      PlainTextUnchanged(s[1..]);
    }
  }

  /** An inline script ending in a newline loses it: "echo hi\n" is written as "echo hi". */
  lemma TrailingNewlineDropped()
    ensures Normalize("echo hi\n") == "echo hi"
  {
    var s := "echo hi\n";
    assert TrimStart(s) == s;
    assert s[..|s| - 1] == "echo hi";
    assert TrimEnd(s) == TrimEnd("echo hi") == "echo hi";
    PlainTextUnchanged("echo hi");
  }
}

/** One command-line token of the task, built from the text Ant hands to the nested element. */
module Arguments {

  class OverthereArgument {
    var value: string

    /** A new argument is the empty string. */
    constructor ()
      ensures value == ""
    {
      value := "";
    }

    method GetValue() returns (v: string)
      ensures v == value
    {
      v := value;
    }

    /** Replaces the whole value. */
    method SetValue(v: string)
      modifies this
      ensures value == v
    {
      value := v;
    }

    /** Appends a text chunk at the end of the value. */
    method AddText(text: string)
      modifies this
      ensures value == old(value) + text
    {
      value := value + text;
    }
  }

  /** The chunks joined in order. */
  function Concat(texts: seq<string>): string
  {
    if texts == [] then "" else Concat(texts[..|texts| - 1]) + texts[|texts| - 1]
  }

  lemma {:induction false} ConcatAppend(a: seq<string>, b: seq<string>)
    ensures Concat(a + b) == Concat(a) + Concat(b)
    decreases |b|
  {
    if b == [] {
      assert a + b == a;
    } else {
      var init, last := b[..|b| - 1], b[|b| - 1];
      assert (a + b)[..|a + b| - 1] == a + init;
      assert (a + b)[|a + b| - 1] == last;
      ConcatAppend(a, init);
      assert Concat(a + b) == (Concat(a) + Concat(init)) + last;
    }
  }

  /**
   * Every chunk sits in the joined text right after the chunks before it: the joined text
   * starts with the first i chunks followed by the i-th.
   */
  lemma ConcatKeepsOrder(texts: seq<string>, i: nat)
    requires i < |texts|
    ensures Concat(texts[..i]) + texts[i] <= Concat(texts)
    ensures |Concat(texts[..i])| + |texts[i]| <= |Concat(texts)|
  {
    assert texts == texts[..i + 1] + texts[i + 1..];
    ConcatAppend(texts[..i + 1], texts[i + 1..]);
    assert texts[..i + 1][..i] == texts[..i];
  }

  /** Ant delivering the element's text chunks one `addText` call at a time. */
  method AddTexts(arg: OverthereArgument, texts: seq<string>)
    modifies arg
    ensures arg.value == old(arg.value) + Concat(texts)
  {
    var i := 0;
    while i < |texts|
      invariant 0 <= i <= |texts|
      invariant arg.value == old(arg.value) + Concat(texts[..i])
    {
      arg.AddText(texts[i]);
      assert texts[..i + 1][..i] == texts[..i];
      i := i + 1;
    }
    assert texts[..i] == texts;
  }

  /** A new argument fed the chunks `texts` holds exactly their concatenation. */
  method NewArgument(texts: seq<string>) returns (arg: OverthereArgument)
    ensures fresh(arg) && arg.value == Concat(texts)
  {
    arg := new OverthereArgument();
    AddTexts(arg, texts);
  }
}

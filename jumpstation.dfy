/**
 * The jumpstation option string: tokens separated by ',', ';' or newline, each either
 * `key=value` or a bare key meaning "true", collected into the options of an SSH tunnel hop.
 */
module Jumpstation {
  import opened Wrappers
  import opened Errors
  import opened Text
  import opened Options

  predicate IsDelimiter(c: char) { c == ',' || c == ';' || c == '\n' }

  predicate NoDelimiter(t: string) { forall j :: 0 <= j < |t| ==> !IsDelimiter(t[j]) }

  /** Split at every delimiter, keeping empty fields. */
  function Fields(s: string): (r: seq<string>)
    ensures |r| >= 1
  {
    if s == [] then [""]
    else if IsDelimiter(s[0]) then [""] + Fields(s[1..])
    else
      var f := Fields(s[1..]);
      [[s[0]] + f[0]] + f[1..]
  }

  function NonEmpty(fs: seq<string>): seq<string>
  {
    if fs == [] then [] else (if fs[0] == "" then [] else [fs[0]]) + NonEmpty(fs[1..])
  }

  function RunLength(s: string): (n: nat)
    ensures n <= |s|
    ensures forall i :: 0 <= i < n ==> !IsDelimiter(s[i])
    ensures n == |s| || IsDelimiter(s[n])
  {
    if s == [] || IsDelimiter(s[0]) then 0 else 1 + RunLength(s[1..])
  }

  /** `new StringTokenizer(s, ",;\n")`: skip delimiters, then take the longest run free of them. */
  function Tokens(s: string): (r: seq<string>)
    ensures forall i :: 0 <= i < |r| ==> r[i] != [] && NoDelimiter(r[i])
    decreases |s|
  {
    if s == [] then []
    else if IsDelimiter(s[0]) then Tokens(s[1..])
    else
      var n := RunLength(s);
      [s[..n]] + Tokens(s[n..])
  }

  lemma {:induction false} FieldsOfRun(u: string, v: string)
    requires NoDelimiter(u)
    requires v == [] || IsDelimiter(v[0])
    ensures Fields(u + v) == [u + Fields(v)[0]] + Fields(v)[1..]
    decreases |u|
  {
    if u == [] {
      assert u + v == v;
    } else {
      assert (u + v)[0] == u[0];
      assert (u + v)[1..] == u[1..] + v;
      FieldsOfRun(u[1..], v);
      assert [u[0]] + (u[1..] + Fields(v)[0]) == u + Fields(v)[0];
    }
  }

  /** The tokens are exactly the non-empty fields between delimiters, in order. */
  lemma {:induction false} TokensAreNonEmptyFields(s: string)
    ensures Tokens(s) == NonEmpty(Fields(s))
    decreases |s|
  {
    if s == [] {
    } else if IsDelimiter(s[0]) {
      TokensAreNonEmptyFields(s[1..]);
      assert ([""] + Fields(s[1..]))[1..] == Fields(s[1..]);
    } else {
      var n := RunLength(s);
      var u, v := s[..n], s[n..];
      assert s == u + v;
      FieldsOfRun(u, v);
      assert u + "" == u;
      if v == [] {
        assert Fields(v) == [""];
        assert Fields(s) == [u];
      } else {
        var g := Fields(v);
        assert g == [""] + Fields(v[1..]);
        assert g[0] == "" && g[1..] == Fields(v[1..]);
        assert Fields(s) == [u] + Fields(v[1..]);
        assert ([u] + Fields(v[1..]))[1..] == Fields(v[1..]);
        TokensAreNonEmptyFields(v[1..]);
        assert Tokens(v) == Tokens(v[1..]);
      }
    }
  }

  /** One token's key and value: split at the first '=' if it is not the first char. */
  function ParseToken(t: string): (string, string)
  {
    var i := IndexOf(t, '=');
    if i > 0 then (Trim(t[..i]), Trim(t[i + 1..])) else (t, "true")
  }

  function Key(t: string): string { ParseToken(t).0 }

  function Val(t: string): string { ParseToken(t).1 }

  /** `k=v` with a non-empty, '='-free `k` yields the trimmed `k` and the trimmed `v`, which may hold '='. */
  lemma SplitAtFirstEquals(k: string, v: string)
    requires k != [] && '=' !in k
    ensures ParseToken(k + "=" + v) == (Trim(k), Trim(v))
  {
    var t := k + "=" + v;
    FirstIndexAfterFreePrefix(k, '=', v);
    assert t[..|k|] == k;
    assert t[|k| + 1..] == v;
  }

  lemma FirstIndexAfterFreePrefix(k: string, c: char, rest: string)
    requires c !in k
    ensures IndexOf(k + [c] + rest, c) == |k|
  {
    var t := k + [c] + rest;
    assert t[|k|] == c;
  }

  /** A token whose first '=' is missing or leading is an untrimmed key with value "true". */
  lemma BareToken(t: string)
    requires '=' !in t || t[0] == '='
    ensures ParseToken(t) == (t, "true")
  {
  }

  /** The options preset before the string is read: the hop is an SSH tunnel. */
  function Preset(): Options { map[ConnectionType := Tunnel] }

  /** A token that the parser refuses: key connectionType with a value other than ssh. */
  predicate Refused(t: string) { Key(t) == ConnectionType && Val(t) != "ssh" }

  /** Some token of `ts` is refused. */
  predicate SomeRefused(ts: seq<string>)
  {
    exists i :: 0 <= i < |ts| && Refused(ts[i])
  }

  /** The effect of one token on the options collected so far. */
  function Step(jo: Options, t: string): Result<Options, Error>
  {
    var (n, v) := ParseToken(t);
    if n == ConnectionType then
      if v == "ssh" then Ok(jo) else Err(UnsupportedJumpConnectionType(v))
    else Ok(jo[n := Str(v)])
  }

  /** The tokens applied left to right; the first refused token stops the parse. */
  function Apply(jo: Options, ts: seq<string>): Result<Options, Error>
    decreases |ts|
  {
    if ts == [] then Ok(jo)
    else
      match Step(jo, ts[0])
      case Err(e) => Err(e)
      case Ok(next) => Apply(next, ts[1..])
  }

  /** The jumpstation options the task builds from the string `spec`. */
  function JumpOptions(spec: string): Result<Options, Error>
  {
    Apply(Preset(), Tokens(spec))
  }

  /** The tokenizer loop: fills the option map token by token. */
  method ParseJumpstation(spec: string) returns (r: Result<Options, Error>)
    ensures r == JumpOptions(spec)
  {
    var jo := Preset();
    var tokens := Tokens(spec);
    var i := 0;
    while i < |tokens|
      invariant 0 <= i <= |tokens|
      invariant Apply(jo, tokens[i..]) == JumpOptions(spec)
    {
      var n := tokens[i];
      var v := "true";
      var eq := IndexOf(n, '=');
      if eq > 0 {
        v := Trim(n[eq + 1..]);
        n := Trim(n[..eq]);
      }
      assert (n, v) == ParseToken(tokens[i]);
      if n == ConnectionType {
        if v != "ssh" {
          return Err(UnsupportedJumpConnectionType(v));
        }
      } else {
        jo := jo[n := Str(v)];
      }
      assert tokens[i..][1..] == tokens[i + 1..];
      i := i + 1;
    }
    r := Ok(jo);
  }

  /** The parse fails exactly when some token is refused, whatever was collected before. */
  lemma {:induction false} ApplyFails(jo: Options, ts: seq<string>)
    ensures Apply(jo, ts).Err? <==> SomeRefused(ts)
    decreases |ts|
  {
    if ts != [] {
      match Step(jo, ts[0])
      case Err(_) =>
      case Ok(next) =>
        ApplyFails(next, ts[1..]);
        if exists i :: 0 <= i < |ts[1..]| && Refused(ts[1..][i]) {
          var i :| 0 <= i < |ts[1..]| && Refused(ts[1..][i]);
          assert Refused(ts[i + 1]);
        }
        if exists i :: 0 <= i < |ts| && Refused(ts[i]) {
          var i :| 0 <= i < |ts| && Refused(ts[i]);
          assert i > 0 && Refused(ts[1..][i - 1]);
        }
    }
  }

  /** A refused connectionType anywhere in the string is an error, and nothing else is. */
  lemma JumpstationRefuses(spec: string)
    ensures JumpOptions(spec).Err? <==> SomeRefused(Tokens(spec))
  {
    var ts := Tokens(spec);
    assert JumpOptions(spec) == Apply(Preset(), ts);
    ApplyFails(Preset(), ts);
  }

  /** A key no token names keeps its value. */
  lemma {:induction false} ApplyKeepsUntouched(jo: Options, ts: seq<string>, k: string)
    requires Apply(jo, ts).Ok?
    requires forall i :: 0 <= i < |ts| ==> Key(ts[i]) != k
    ensures (k in Apply(jo, ts).value <==> k in jo)
    ensures k in jo ==> Apply(jo, ts).value[k] == jo[k]
    decreases |ts|
  {
    if ts != [] {
      var next := Step(jo, ts[0]).value;
      assert forall i :: 0 <= i < |ts[1..]| ==> Key(ts[1..][i]) == Key(ts[i + 1]);
      ApplyKeepsUntouched(next, ts[1..], k);
    }
  }

  /** The value of a key is that of the last token naming it: later tokens win. */
  lemma {:induction false} ApplyLastWins(jo: Options, ts: seq<string>, i: nat)
    requires Apply(jo, ts).Ok?
    requires i < |ts| && Key(ts[i]) != ConnectionType
    requires forall j :: i < j < |ts| ==> Key(ts[j]) != Key(ts[i])
    ensures Key(ts[i]) in Apply(jo, ts).value
    ensures Apply(jo, ts).value[Key(ts[i])] == Str(Val(ts[i]))
    decreases |ts|
  {
    var next := Step(jo, ts[0]).value;
    if i == 0 {
      assert forall j :: 0 <= j < |ts[1..]| ==> Key(ts[1..][j]) == Key(ts[j + 1]);
      ApplyKeepsUntouched(next, ts[1..], Key(ts[0]));
    } else {
      assert ts[1..][i - 1] == ts[i];
      assert forall j :: i - 1 < j < |ts[1..]| ==> ts[1..][j] == ts[j + 1];
      ApplyLastWins(next, ts[1..], i - 1);
    }
  }

  /**
   * A successful parse keeps the preset TUNNEL type (connectionType=ssh changes nothing) and
   * holds no key that no token names.
   */
  lemma JumpstationOptions(spec: string, k: string)
    requires JumpOptions(spec).Ok?
    ensures ConnectionType in JumpOptions(spec).value
    ensures JumpOptions(spec).value[ConnectionType] == Tunnel
    ensures (forall i :: 0 <= i < |Tokens(spec)| ==> Key(Tokens(spec)[i]) != k) && k != ConnectionType
      ==> k !in JumpOptions(spec).value
  {
    var ts := Tokens(spec);
    ConnectionTypeKept(Preset(), ts);
    if (forall i :: 0 <= i < |ts| ==> Key(ts[i]) != k) && k != ConnectionType {
      ApplyKeepsUntouched(Preset(), ts, k);
    }
  }

  /** In a successful parse, a key other than connectionType has the value of the last token naming it. */
  lemma JumpstationLastWins(spec: string, i: nat)
    requires JumpOptions(spec).Ok?
    requires i < |Tokens(spec)| && Key(Tokens(spec)[i]) != ConnectionType
    requires forall j :: i < j < |Tokens(spec)| ==> Key(Tokens(spec)[j]) != Key(Tokens(spec)[i])
    ensures Key(Tokens(spec)[i]) in JumpOptions(spec).value
    ensures JumpOptions(spec).value[Key(Tokens(spec)[i])] == Str(Val(Tokens(spec)[i]))
  {
    ApplyLastWins(Preset(), Tokens(spec), i);
  }

  lemma {:induction false} ConnectionTypeKept(jo: Options, ts: seq<string>)
    requires Apply(jo, ts).Ok? && ConnectionType in jo
    ensures ConnectionType in Apply(jo, ts).value && Apply(jo, ts).value[ConnectionType] == jo[ConnectionType]
    decreases |ts|
  {
    if ts != [] {
      ConnectionTypeKept(Step(jo, ts[0]).value, ts[1..]);
    }
  }
}

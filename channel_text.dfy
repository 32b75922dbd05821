/** The text side of the "Edit electrode channels" dialog: the channel list is
    shown as `','.join(str(c) for c in channels)` and read back with
    `text.split(',')` and Python 2's `int()` on each piece. */
module ChannelText {
  import opened Wrappers

  // ---------------------------------------------------------------------
  // str.split(sep) and sep.join(parts)
  // ---------------------------------------------------------------------

  /** Python's `s.split(sep)` for a one-character separator: the pieces
      between the separators, always at least one (`"".split(",") == [""]`). */
  function Split(s: string, sep: char): (parts: seq<string>)
    ensures |parts| >= 1
    ensures forall k :: 0 <= k < |parts| ==> sep !in parts[k]
    decreases |s|
  {
    if |s| == 0 then [""]
    else
      var rest := Split(s[1..], sep);
      if s[0] == sep then [""] + rest
      else [[s[0]] + rest[0]] + rest[1..]
  }

  /** Python's `sep.join(parts)`. */
  function Join(parts: seq<string>, sep: char): string
    decreases |parts|
  {
    if |parts| == 0 then ""
    else if |parts| == 1 then parts[0]
    else parts[0] + [sep] + Join(parts[1..], sep)
  }

  /** Joining the pieces of a split gives the text back. */
  lemma {:induction false} JoinSplit(s: string, sep: char)
    ensures Join(Split(s, sep), sep) == s
    decreases |s|
  {
    if |s| > 0 {
      var rest := Split(s[1..], sep);
      JoinSplit(s[1..], sep);
      if s[0] == sep {
        assert Split(s, sep) == [""] + rest;
        assert ([""] + rest)[1..] == rest;
      } else {
        var parts := [[s[0]] + rest[0]] + rest[1..];
        assert Split(s, sep) == parts;
        if |rest| == 1 {
          assert Join(parts, sep) == [s[0]] + rest[0];
        } else {
          assert parts[1..] == rest[1..];
          assert Join(rest, sep) == rest[0] + [sep] + Join(rest[1..], sep);
        }
        assert s == [s[0]] + s[1..];
      }
    }
  }

  lemma {:induction false} SplitNoSeparator(a: string, sep: char)
    requires sep !in a
    ensures Split(a, sep) == [a]
    decreases |a|
  {
    if |a| > 0 {
      SplitNoSeparator(a[1..], sep);
      assert [a[0]] + a[1..] == a;
    }
  }

  lemma {:induction false} SplitAtSeparator(a: string, sep: char, t: string)
    requires sep !in a
    ensures Split(a + [sep] + t, sep) == [a] + Split(t, sep)
    decreases |a|
  {
    if |a| == 0 {
      assert a + [sep] + t == [sep] + t;
      assert ([sep] + t)[1..] == t;
    } else {
      var s := a + [sep] + t;
      assert s[0] == a[0] && s[1..] == a[1..] + [sep] + t;
      SplitAtSeparator(a[1..], sep, t);
      assert [a[0]] + a[1..] == a;
    }
  }

  /** Splitting a join of separator-free pieces gives the pieces back. */
  lemma {:induction false} SplitJoin(parts: seq<string>, sep: char)
    requires |parts| >= 1
    requires forall k :: 0 <= k < |parts| ==> sep !in parts[k]
    ensures Split(Join(parts, sep), sep) == parts
    decreases |parts|
  {
    if |parts| == 1 {
      SplitNoSeparator(parts[0], sep);
    } else {
      SplitJoin(parts[1..], sep);
      SplitAtSeparator(parts[0], sep, Join(parts[1..], sep));
      assert [parts[0]] + parts[1..] == parts;
    }
  }

  // ---------------------------------------------------------------------
  // str(n) for an integer
  // ---------------------------------------------------------------------

  predicate IsDigit(ch: char) {
    '0' <= ch <= '9'
  }

  predicate AllDigits(d: string) {
    forall k :: 0 <= k < |d| ==> IsDigit(d[k])
  }

  /** The whitespace Python 2's `int()` skips (C `isspace`). */
  predicate IsSpace(ch: char) {
    ch == ' ' || ch == '\t' || ch == '\n' || ch == '\r' || ch == '\U{000B}' || ch == '\U{000C}'
  }

  function DigitChar(d: nat): char
    requires d < 10
  {
    "0123456789"[d]
  }

  /** Decimal digits of a natural number, most significant first. */
  function NatToString(n: nat): (s: string)
    ensures |s| >= 1 && AllDigits(s)
    decreases n
  {
    if n < 10 then [DigitChar(n)] else NatToString(n / 10) + [DigitChar(n % 10)]
  }

  /** Python's `str(n)` for an int. */
  function IntToString(n: int): string {
    if n < 0 then "-" + NatToString(-n) else NatToString(n)
  }

  /** The default text of the dialog: `','.join([str(i) for i in channels])`. */
  function ChannelListText(channels: seq<int>): string {
    Join(ChannelStrings(channels), ',')
  }

  // ---------------------------------------------------------------------
  // int(token), as Python 2.7 parses a byte string in base 10
  // ---------------------------------------------------------------------

  function TrimLeft(s: string): string
    decreases |s|
  {
    if |s| > 0 && IsSpace(s[0]) then TrimLeft(s[1..]) else s
  }

  function TrimRight(s: string): string
    decreases |s|
  {
    if |s| > 0 && IsSpace(s[|s| - 1]) then TrimRight(s[..|s| - 1]) else s
  }

  /** The value of a string of decimal digits. */
  function DigitsValue(d: string): nat
    requires AllDigits(d)
    decreases |d|
  {
    if |d| == 0 then 0 else DigitsValue(d[..|d| - 1]) * 10 + (d[|d| - 1] as int - '0' as int)
  }

  /** Python 2's `int(token)`: leading whitespace, an optional sign, more
      whitespace, one or more digits and trailing whitespace; `None` is the
      `ValueError`. */
  function ParseInt(token: string): Option<int> {
    var t := TrimLeft(token);
    var signed := |t| > 0 && (t[0] == '-' || t[0] == '+');
    var d := TrimRight(if signed then TrimLeft(t[1..]) else t);
    if |d| > 0 && AllDigits(d) then
      var v: int := DigitsValue(d);
      Some(if signed && t[0] == '-' then -v else v)
    else None
  }

  lemma {:induction false} DigitsValueOfNat(n: nat)
    ensures DigitsValue(NatToString(n)) == n
    decreases n
  {
    var s := NatToString(n);
    if n >= 10 {
      DigitsValueOfNat(n / 10);
      assert s[..|s| - 1] == NatToString(n / 10);
    }
  }

  /** `int(str(n)) == n`. */
  lemma ParseIntOfString(n: int)
    ensures ParseInt(IntToString(n)) == Some(n)
  {
    var s := IntToString(n);
    var m: nat := if n < 0 then -n else n;
    var d := NatToString(m);
    DigitsValueOfNat(m);
    assert !IsSpace(s[0]);
    assert TrimLeft(s) == s;
    if n < 0 {
      assert s[1..] == d;
      assert !IsSpace(d[0]);
      assert TrimLeft(d) == d;
    }
    assert !IsSpace(d[|d| - 1]);
    assert TrimRight(d) == d;
  }

  lemma {:induction false} TrimLeftChars(s: string)
    ensures forall ch :: ch in s ==> IsSpace(ch) || ch in TrimLeft(s)
    decreases |s|
  {
    if |s| > 0 && IsSpace(s[0]) {
      TrimLeftChars(s[1..]);
      assert forall ch :: ch in s ==> ch == s[0] || ch in s[1..];
    }
  }

  lemma {:induction false} TrimRightChars(s: string)
    ensures forall ch :: ch in s ==> IsSpace(ch) || ch in TrimRight(s)
    decreases |s|
  {
    if |s| > 0 && IsSpace(s[|s| - 1]) {
      TrimRightChars(s[..|s| - 1]);
      assert forall ch :: ch in s ==> ch == s[|s| - 1] || ch in s[..|s| - 1];
    }
  }

  /** A token `int()` accepts holds only digits, whitespace and signs, so a
      token such as "a" is refused. */
  lemma ParsedTokenChars(token: string)
    requires ParseInt(token).Some?
    ensures forall ch :: ch in token ==> IsDigit(ch) || IsSpace(ch) || ch == '-' || ch == '+'
  {
    var t := TrimLeft(token);
    var signed := |t| > 0 && (t[0] == '-' || t[0] == '+');
    var u := if signed then TrimLeft(t[1..]) else t;
    var d := TrimRight(u);
    TrimLeftChars(token);
    TrimRightChars(u);
    if signed {
      TrimLeftChars(t[1..]);
      assert forall ch :: ch in t ==> ch == t[0] || ch in t[1..];
    }
    assert forall ch :: ch in d ==> IsDigit(ch);
  }

  // ---------------------------------------------------------------------
  // Converting the pieces (lines 306-308)
  // ---------------------------------------------------------------------

  /** `[int(t) for t in tokens]`, `None` when some `int()` raises. */
  function ConvertTokens(tokens: seq<string>): Option<seq<int>>
    decreases |tokens|
  {
    if |tokens| == 0 then Some([])
    else
      match ParseInt(tokens[0])
      case None => None
      case Some(v) =>
        match ConvertTokens(tokens[1..])
        case None => None
        case Some(rest) => Some([v] + rest)
  }

  /** The conversion succeeds exactly when every piece is an integer, and then
      it holds each piece's value in order. */
  lemma {:induction false} ConvertTokensSpec(tokens: seq<string>)
    ensures ConvertTokens(tokens).Some? <==> forall k :: 0 <= k < |tokens| ==> ParseInt(tokens[k]).Some?
    ensures ConvertTokens(tokens).Some? ==>
      |ConvertTokens(tokens).value| == |tokens| &&
      forall k :: 0 <= k < |tokens| ==> ConvertTokens(tokens).value[k] == ParseInt(tokens[k]).value
    decreases |tokens|
  {
    if |tokens| > 0 {
      ConvertTokensSpec(tokens[1..]);
      assert forall k :: 1 <= k < |tokens| ==> tokens[k] == tokens[1..][k - 1];
    }
  }

  /** The loop at lines 307-308, which overwrites each piece of the local list
      with its integer value and stops at the first piece `int()` refuses. */
  method ParseChannels(tokens: seq<string>) returns (channels: Option<seq<int>>)
    ensures channels.Some? <==> forall k :: 0 <= k < |tokens| ==> ParseInt(tokens[k]).Some?
    ensures channels.Some? ==>
      |channels.value| == |tokens| &&
      forall k :: 0 <= k < |tokens| ==> channels.value[k] == ParseInt(tokens[k]).value
    ensures channels == ConvertTokens(tokens)
  {
    var values := new int[|tokens|];
    ConvertTokensSpec(tokens);
    for i := 0 to |tokens|
      invariant forall k :: 0 <= k < i ==> ParseInt(tokens[k]).Some? && values[k] == ParseInt(tokens[k]).value
    {
      var v := ParseInt(tokens[i]);
      if v.None? {
        assert !ParseInt(tokens[i]).Some?;
        return None;
      }
      values[i] := v.value;
    }
    channels := Some(values[..]);
    assert ConvertTokens(tokens).Some?;
    assert values[..] == ConvertTokens(tokens).value;
  }

  /** The pieces of the dialog's default text: `[str(i) for i in channels]`. */
  function ChannelStrings(channels: seq<int>): (parts: seq<string>)
    ensures |parts| == |channels|
  {
    seq(|channels|, k requires 0 <= k < |channels| => IntToString(channels[k]))
  }

  lemma IntToStringHasNoComma(n: int)
    ensures ',' !in IntToString(n)
  {
    var m: nat := if n < 0 then -n else n;
    var d := NatToString(m);
    assert forall ch :: ch in d ==> IsDigit(ch);
    assert IntToString(n) == d || IntToString(n) == "-" + d;
  }

  /** Reading the dialog's default text back gives the electrode's channel
      list unchanged. */
  lemma ChannelListTextRoundTrip(channels: seq<int>)
    requires |channels| >= 1
    ensures Split(ChannelListText(channels), ',') == ChannelStrings(channels)
    ensures ConvertTokens(Split(ChannelListText(channels), ',')) == Some(channels)
  {
    var parts := ChannelStrings(channels);
    assert ChannelListText(channels) == Join(parts, ',');
    forall k | 0 <= k < |parts|
      ensures ',' !in parts[k] && ParseInt(parts[k]) == Some(channels[k])
    {
      ParseIntOfString(channels[k]);
      IntToStringHasNoComma(channels[k]);
    }
    SplitJoin(parts, ',');
    ConvertTokensSpec(parts);
    assert ConvertTokens(parts).value == channels;
  }
}

/** The string handling aim2/config.py relies on: the `AIM2_` prefix test,
    lower-casing, splitting a key on `__`, and the integer parsing `int()`
    performs when an override replaces an integer setting. */
module ConfigText {
  import opened Wrappers

  /** Prefix that marks an environment variable as a configuration override. */
  const EnvPrefix: string := "AIM2_"

  predicate HasEnvPrefix(key: string)
  {
    EnvPrefix <= key
  }

  // ---------------------------------------------------------------------
  // Lower-casing (ASCII letters; other characters are kept)
  // ---------------------------------------------------------------------

  predicate IsUpper(c: char)
  {
    'A' <= c <= 'Z'
  }

  function LowerChar(c: char): (r: char)
    ensures !IsUpper(r)
    ensures IsUpper(c) ==> r as int == c as int + 32
    ensures !IsUpper(c) ==> r == c
  {
    if IsUpper(c) then (c as int + 32) as char else c
  }

  /** str.lower() on the ASCII range. */
  function Lower(s: string): (r: string)
    ensures |r| == |s|
    ensures forall i :: 0 <= i < |s| ==> r[i] == LowerChar(s[i])
  {
    seq(|s|, i requires 0 <= i < |s| => LowerChar(s[i]))
  }

  /** Lower-casing twice is lower-casing once. */
  lemma LowerIdempotent(s: string)
    ensures Lower(Lower(s)) == Lower(s)
  {
  }

  // ---------------------------------------------------------------------
  // Splitting on the nested-key separator "__"
  // ---------------------------------------------------------------------

  predicate SeparatorAt(s: string, i: int)
  {
    0 <= i && i + 1 < |s| && s[i] == '_' && s[i + 1] == '_'
  }

  predicate ContainsSeparator(s: string)
  {
    exists i | 0 <= i < |s| :: SeparatorAt(s, i)
  }

  /** str.split("__"): the pieces between leftmost non-overlapping
      occurrences of the separator. There is always at least one piece and
      no piece contains the separator. */
  function Split(s: string): (parts: seq<string>)
    ensures |parts| >= 1
    ensures parts[0] <= s
    ensures forall k :: 0 <= k < |parts| ==> !ContainsSeparator(parts[k])
    decreases |s|
  {
    if |s| < 2 then
      assert forall i :: !SeparatorAt(s, i);
      [s]
    else if s[0] == '_' && s[1] == '_' then
      assert forall i :: !SeparatorAt("", i);
      [""] + Split(s[2..])
    else
      var rest := Split(s[1..]);
      var first := [s[0]] + rest[0];
      assert !ContainsSeparator(first) by {
        forall i | 0 < i && SeparatorAt(first, i) ensures false {
          assert SeparatorAt(rest[0], i - 1);
        }
      }
      [first] + rest[1..]
  }

  /** "__".join(parts), the inverse of Split. */
  function Join(parts: seq<string>): string
    requires |parts| >= 1
  {
    if |parts| == 1 then parts[0] else parts[0] + ("__" + Join(parts[1..]))
  }

  /** Joining the pieces of a split gives back the string. */
  lemma {:induction false} JoinSplit(s: string)
    ensures Join(Split(s)) == s
    decreases |s|
  {
    if |s| < 2 {
    } else if s[0] == '_' && s[1] == '_' {
      var t := s[2..];
      assert s == "__" + t;
      SplitAfterSeparator(t);
      JoinSplit(t);
      assert ([""] + Split(t))[1..] == Split(t);
    } else {
      var t := s[1..];
      assert s == [s[0]] + t;
      SplitAfterChar(s[0], t);
      JoinSplit(t);
      var rest := Split(t);
      if |rest| > 1 {
        var j := "__" + Join(rest[1..]);
        assert Join(rest) == rest[0] + j;
        var parts := [[s[0]] + rest[0]] + rest[1..];
        assert parts[1..] == rest[1..];
        assert Join(parts) == ([s[0]] + rest[0]) + j;
        assert ([s[0]] + rest[0]) + j == [s[0]] + (rest[0] + j);
      }
    }
  }

  /** A piece that may stand before a separator without merging with it. */
  predicate JoinablePiece(part: string)
  {
    !ContainsSeparator(part) && (|part| == 0 || part[|part| - 1] != '_')
  }

  /** Split of a string that starts with the separator. */
  lemma SplitAfterSeparator(s: string)
    ensures Split("__" + s) == [""] + Split(s)
  {
    assert ("__" + s)[2..] == s;
  }

  /** Split of a string whose first character does not start a separator:
      that character joins the first piece. */
  lemma SplitAfterChar(c: char, s: string)
    requires !(c == '_' && |s| > 0 && s[0] == '_')
    ensures Split([c] + s) == [[c] + Split(s)[0]] + Split(s)[1..]
  {
    assert ([c] + s)[1..] == s;
  }

  /** Splitting a join gives back the pieces, provided no piece contains the
      separator and no piece but the last ends in an underscore (otherwise
      that underscore would pair with the separator). */
  lemma {:induction false} SplitJoin(parts: seq<string>)
    requires |parts| >= 1
    requires !ContainsSeparator(parts[|parts| - 1])
    requires forall k :: 0 <= k < |parts| - 1 ==> JoinablePiece(parts[k])
    ensures Split(Join(parts)) == parts
    decreases |parts|, |parts[0]|
  {
    if |parts| == 1 {
      SplitNoSeparator(parts[0]);
    } else if parts[0] == "" {
      SplitJoin(parts[1..]);
      SplitJoinEmptyFirst(parts);
    } else {
      var p := parts[0];
      ShiftFirstPiece(parts);
      SplitJoin([p[1..]] + parts[1..]);
      SplitJoinStep(p, parts[1..]);
      assert [p] + parts[1..] == parts;
    }
  }

  /** The step of SplitJoin for an empty first piece: the join starts
      with the separator. */
  lemma SplitJoinEmptyFirst(parts: seq<string>)
    requires |parts| >= 2 && parts[0] == ""
    requires Split(Join(parts[1..])) == parts[1..]
    ensures Split(Join(parts)) == parts
  {
    assert Join(parts) == "__" + Join(parts[1..]);
    SplitAfterSeparator(Join(parts[1..]));
    assert [""] + parts[1..] == parts;
  }

  /** Dropping the first character of the first piece keeps the pieces
      joinable and the last piece as it was. */
  lemma ShiftFirstPiece(parts: seq<string>)
    requires |parts| >= 2 && |parts[0]| > 0
    requires forall k :: 0 <= k < |parts| - 1 ==> JoinablePiece(parts[k])
    ensures var parts' := [parts[0][1..]] + parts[1..];
            parts'[|parts'| - 1] == parts[|parts| - 1] &&
            forall k :: 0 <= k < |parts'| - 1 ==> JoinablePiece(parts'[k])
  {
    var parts' := [parts[0][1..]] + parts[1..];
    JoinablePieceTail(parts[0]);
    forall k | 0 <= k < |parts'| - 1 ensures JoinablePiece(parts'[k]) {
      if k > 0 { assert parts'[k] == parts[k]; }
    }
  }

  /** Dropping the first character of a joinable piece leaves one. */
  lemma JoinablePieceTail(p: string)
    requires |p| > 0 && JoinablePiece(p)
    ensures JoinablePiece(p[1..])
  {
    assert !ContainsSeparator(p[1..]) by {
      forall i | 0 <= i < |p[1..]| && SeparatorAt(p[1..], i) ensures false {
        assert SeparatorAt(p, i + 1);
      }
    }
    assert |p[1..]| == 0 || p[1..][|p[1..]| - 1] == p[|p| - 1];
  }

  lemma ConsAppend(p: string, j: string)
    requires |p| > 0
    ensures p + j == [p[0]] + (p[1..] + j)
  {
  }

  /** A joinable piece followed by more text never starts with the separator. */
  lemma JoinablePieceStart(p: string, j: string)
    requires |p| > 0 && JoinablePiece(p)
    ensures !(p[0] == '_' && |p[1..] + j| > 0 && (p[1..] + j)[0] == '_')
  {
    if |p| > 1 {
      assert (p[1..] + j)[0] == p[1];
      assert !SeparatorAt(p, 0);
    }
  }

  /** The inductive step of SplitJoin: a first piece that splits off
      correctly without its first character also does with it. */
  lemma SplitJoinStep(p: string, tail: seq<string>)
    requires |p| > 0 && JoinablePiece(p) && |tail| >= 1
    requires Split(Join([p[1..]] + tail)) == [p[1..]] + tail
    ensures Split(Join([p] + tail)) == [p] + tail
  {
    var rest := Join([p[1..]] + tail);
    var j := "__" + Join(tail);
    assert ([p[1..]] + tail)[1..] == tail;
    assert rest == p[1..] + j;
    assert ([p] + tail)[1..] == tail;
    assert Join([p] + tail) == p + j;
    ConsAppend(p, j);
    JoinablePieceStart(p, j);
    SplitAfterChar(p[0], rest);
    var sr := Split(rest);
    assert sr[0] == p[1..] && sr[1..] == tail;
    assert [p[0]] + p[1..] == p;
    assert Join([p] + tail) == [p[0]] + rest;
  }

  /** A string without the separator splits into itself alone. */
  lemma {:induction false} SplitNoSeparator(s: string)
    requires !ContainsSeparator(s)
    ensures Split(s) == [s]
    decreases |s|
  {
    if |s| >= 2 {
      assert !SeparatorAt(s, 0);
      assert !ContainsSeparator(s[1..]) by {
        forall i | SeparatorAt(s[1..], i) ensures false {
          assert SeparatorAt(s, i + 1);
        }
      }
      SplitNoSeparator(s[1..]);
      assert s == [s[0]] + s[1..];
    }
  }

  // ---------------------------------------------------------------------
  // int(): optional surrounding white space, optional sign, decimal digits
  // with single underscores allowed between them
  // ---------------------------------------------------------------------

  predicate IsDigit(c: char)
  {
    '0' <= c <= '9'
  }

  /** The white space int() skips around a number: tab, line feed,
      vertical tab, form feed, carriage return and space. The separators
      0x1C-0x1F count as white space for str.isspace() but not here. */
  predicate IsSpace(c: char)
  {
    9 <= c as int <= 13 || c == ' '
  }

  function TrimStart(s: string): (r: string)
    ensures |r| <= |s|
    ensures |r| > 0 ==> !IsSpace(r[0])
    ensures forall i :: 0 <= i < |s| - |r| ==> IsSpace(s[i])
    ensures r == s[|s| - |r|..]
    decreases |s|
  {
    if |s| > 0 && IsSpace(s[0]) then TrimStart(s[1..]) else s
  }

  function TrimEnd(s: string): (r: string)
    ensures r <= s
    ensures |r| > 0 ==> !IsSpace(r[|r| - 1])
    ensures forall i :: |r| <= i < |s| ==> IsSpace(s[i])
    decreases |s|
  {
    if |s| > 0 && IsSpace(s[|s| - 1]) then TrimEnd(s[..|s| - 1]) else s
  }

  /** The white space int() skips at both ends: neither end of the
      result is white space. */
  function Strip(s: string): string
  {
    TrimEnd(TrimStart(s))
  }

  /** A run of digits where each underscore sits between two digits: it
      starts and ends with a digit, holds only digits and underscores, and
      has no two underscores in a row. */
  predicate IsDigitRun(d: string)
  {
    && |d| > 0
    && IsDigit(d[0])
    && IsDigit(d[|d| - 1])
    && (forall i :: 0 <= i < |d| ==> IsDigit(d[i]) || d[i] == '_')
    && !ContainsSeparator(d)
  }

  /** Position i holds a digit, or an underscore with a digit on each side. */
  predicate DigitOrInnerUnderscore(d: string, i: int)
    requires 0 <= i < |d|
  {
    IsDigit(d[i]) || (d[i] == '_' && 0 < i < |d| - 1 && IsDigit(d[i - 1]) && IsDigit(d[i + 1]))
  }

  /** A digit run is exactly what int() accepts between the sign and the
      end: digits, where every underscore has a digit on each side. */
  lemma DigitRunUnderscoresBetweenDigits(d: string)
    ensures IsDigitRun(d) <==> |d| > 0 && forall i :: 0 <= i < |d| ==> DigitOrInnerUnderscore(d, i)
  {
    if IsDigitRun(d) {
      forall i | 0 <= i < |d| ensures DigitOrInnerUnderscore(d, i) {
        if !IsDigit(d[i]) {
          assert d[i + 1] == '_' ==> SeparatorAt(d, i);
          assert d[i - 1] == '_' ==> SeparatorAt(d, i - 1);
        }
      }
    }
    if |d| > 0 && forall i :: 0 <= i < |d| ==> DigitOrInnerUnderscore(d, i) {
      forall i | 0 <= i < |d| ensures !SeparatorAt(d, i) {
        assert DigitOrInnerUnderscore(d, i);
      }
      forall i | 0 <= i < |d| ensures IsDigit(d[i]) || d[i] == '_' {
        assert DigitOrInnerUnderscore(d, i);
      }
      assert DigitOrInnerUnderscore(d, 0);
      assert DigitOrInnerUnderscore(d, |d| - 1);
    }
  }

  /** The digits of a digit run: every underscore removed, every other
      character kept (DropUnderscoresKeeps says: as often as it occurs,
      DropUnderscoresAppend says: in order). */
  function DropUnderscores(d: string): (r: string)
    ensures forall i :: 0 <= i < |r| ==> r[i] != '_'
    ensures (forall i :: 0 <= i < |d| ==> d[i] != '_') ==> r == d
  {
    if d == [] then []
    else if d[0] == '_' then DropUnderscores(d[1..])
    else [d[0]] + DropUnderscores(d[1..])
  }

  /** Only underscores are dropped: every other character occurs in the
      result exactly as often as in the input. */
  lemma {:induction false} DropUnderscoresKeeps(d: string)
    ensures multiset(DropUnderscores(d)) == multiset(d)['_' := 0]
  {
    if d != [] {
      assert d == [d[0]] + d[1..];
      DropUnderscoresKeeps(d[1..]);
    }
  }

  /** Removing underscores works piece by piece, so the characters kept
      stay in their order. */
  lemma {:induction false} DropUnderscoresAppend(a: string, b: string)
    ensures DropUnderscores(a + b) == DropUnderscores(a) + DropUnderscores(b)
    decreases |a|
  {
    if a != [] {
      assert (a + b)[1..] == a[1..] + b;
      DropUnderscoresAppend(a[1..], b);
    } else {
      assert a + b == b;
    }
  }

  function DigitValue(c: char): nat
  {
    if IsDigit(c) then c as int - '0' as int else 0
  }

  /** The number a string of decimal digits denotes. */
  function DecimalValue(d: string): nat
  {
    if d == [] then 0 else DecimalValue(d[..|d| - 1]) * 10 + DigitValue(d[|d| - 1])
  }

  /** CPython's default limit on the number of decimal digits that int()
      converts from a string and str() converts to one
      (sys.get_int_max_str_digits()); beyond it both raise ValueError. */
  const MaxStrDigits: nat := 4300

  /** The unsigned number a digit run denotes, when it is one and has no
      more digits than the limit. */
  function ParseDigitRun(d: string): Option<nat>
  {
    if IsDigitRun(d) && |DropUnderscores(d)| <= MaxStrDigits then Some(DecimalValue(DropUnderscores(d))) else None
  }

  /** int(value): None where Python raises ValueError. A result means the
      stripped text is an optional sign followed by digits and underscores,
      and a negative result needs a minus sign (PlainDigitsParse gives the
      value of a plain string of digits). */
  function ParseInt(s: string): (r: Option<int>)
    ensures r.Some? ==>
      var t := Strip(s);
      && |t| > 0
      && (IsDigit(t[0]) || t[0] == '+' || t[0] == '-')
      && (forall i :: 0 < i < |t| ==> IsDigit(t[i]) || t[i] == '_')
    ensures r.Some? && r.value < 0 ==> Strip(s)[0] == '-'
  {
    var t := Strip(s);
    if |t| > 0 && (t[0] == '+' || t[0] == '-') then
      match ParseDigitRun(t[1..])
      case None => None
      case Some(n) =>
        assert forall i :: 0 < i < |t| ==> t[i] == t[1..][i - 1];
        var m: int := n;
        var v := if t[0] == '-' then -m else m;
        Some(v)
    else
      match ParseDigitRun(t)
      case None => None
      case Some(n) => Some(n)
  }

  function DigitChar(n: nat): char
    requires n < 10
  {
    ('0' as int + n) as char
  }

  /** str(n) for a natural number. */
  function ShowNat(n: nat): (r: string)
    ensures |r| > 0
    ensures forall i :: 0 <= i < |r| ==> IsDigit(r[i])
  {
    if n < 10 then [DigitChar(n)] else ShowNat(n / 10) + [DigitChar(n % 10)]
  }

  /** str(i) for an integer. */
  function ShowInt(i: int): string
  {
    if i < 0 then "-" + ShowNat(-i) else ShowNat(i)
  }

  /** str(i) succeeds: the magnitude has at most MaxStrDigits digits. */
  predicate WithinStrLimit(i: int)
  {
    |ShowNat(if i < 0 then -i else i)| <= MaxStrDigits
  }

  lemma {:induction false} DecimalValueShowNat(n: nat)
    ensures DecimalValue(ShowNat(n)) == n
  {
    if n >= 10 {
      DecimalValueShowNat(n / 10);
      var s := ShowNat(n);
      assert s[..|s| - 1] == ShowNat(n / 10);
    }
  }

  /** Strip leaves a string alone when neither end is white space. */
  lemma StripKeeps(s: string)
    requires |s| > 0 && !IsSpace(s[0]) && !IsSpace(s[|s| - 1])
    ensures Strip(s) == s
  {
  }

  /** str(n) is a digit run that denotes n. */
  lemma ShowNatParses(n: nat)
    requires |ShowNat(n)| <= MaxStrDigits
    ensures IsDigitRun(ShowNat(n))
    ensures ParseDigitRun(ShowNat(n)) == Some(n)
  {
    DecimalValueShowNat(n);
    var d := ShowNat(n);
    assert DropUnderscores(d) == d;
  }

  /** int() on a string with no surrounding white space and no sign is
      the value of its digit run. */
  lemma ParseUnsigned(t: string)
    requires |t| > 0 && Strip(t) == t && t[0] != '+' && t[0] != '-'
    ensures ParseInt(t) == match ParseDigitRun(t) case None => None case Some(n) => Some(n as int)
  {
  }

  /** int() on a sign followed by digits, with no surrounding white space. */
  lemma ParseNegative(t: string)
    requires |t| > 1 && Strip(t) == t && t[0] == '-'
    ensures ParseInt(t) == match ParseDigitRun(t[1..]) case None => None case Some(n) => Some(-(n as int))
  {
  }

  /** int() of a plain string of 1 to MaxStrDigits digits is its decimal
      value. */
  lemma PlainDigitsParse(s: string)
    requires 0 < |s| <= MaxStrDigits
    requires forall i :: 0 <= i < |s| ==> IsDigit(s[i])
    ensures ParseInt(s) == Some(DecimalValue(s) as int)
  {
    StripKeeps(s);
    assert DropUnderscores(s) == s;
    ParseUnsigned(s);
  }

  /** int(str(i)) == i: every integer written out by str() parses back. */
  lemma {:induction false} ParseShowInt(i: int)
    requires WithinStrLimit(i)
    ensures ParseInt(ShowInt(i)) == Some(i)
  {
    if i < 0 {
      var d := ShowNat(-i);
      var s := "-" + d;
      ShowNatParses(-i);
      StripKeeps(s);
      assert s[1..] == d;
      ParseNegative(s);
    } else {
      var d := ShowNat(i);
      ShowNatParses(i);
      StripKeeps(d);
      ParseUnsigned(d);
    }
  }

  /** A digit string longer than the limit is rejected by int(). */
  lemma {:induction false} TooManyDigitsRejected(t: string)
    requires |t| > MaxStrDigits
    requires forall k :: 0 <= k < |t| ==> IsDigit(t[k])
    ensures ParseInt(t) == None
  {
    StripKeeps(t);
    ParseUnsigned(t);
  }

  /** A file separator (0x1C) before a digit is not white space to int(),
      so the string does not parse. */
  lemma SeparatorBeforeDigitRejected()
    ensures ParseInt([28 as char, '5']) == None
  {
    var s := [28 as char, '5'];
    assert Strip(s) == s;
    assert !IsDigitRun(s);
  }
}

/** String operations the source takes from Python's `str` and JavaScript's
    `String`: substring search, `split`, `replace`, `strip`/`trim`, and the
    decimal rendering of integers (with Python's `,` digit grouping). */
module Text {
  import opened Wrappers

  /** `p` occurs in `s` starting at index `i`. */
  predicate OccursAt(s: string, p: string, i: nat)
  {
    i + |p| <= |s| && s[i..i + |p|] == p
  }

  /** The first index at or after `from` where `p` occurs in `s`. */
  function IndexOfFrom(s: string, p: string, from: nat): (r: Option<nat>)
    requires from <= |s|
    ensures r.Some? ==> from <= r.value && OccursAt(s, p, r.value)
    ensures r.Some? ==> forall j :: from <= j < r.value ==> !OccursAt(s, p, j)
    ensures r.None? ==> forall j :: from <= j <= |s| ==> !OccursAt(s, p, j)
    decreases |s| - from
  {
    if OccursAt(s, p, from) then Some(from)
    else if from == |s| then None
    else IndexOfFrom(s, p, from + 1)
  }

  /** The first occurrence of `p` in `s` (Python `str.find`, JavaScript `indexOf`). */
  function IndexOf(s: string, p: string): Option<nat>
  {
    IndexOfFrom(s, p, 0)
  }

  /** Python `p in s`, JavaScript `s.includes(p)`. */
  predicate Contains(s: string, p: string)
  {
    IndexOf(s, p).Some?
  }

  /** `Contains` holds exactly when `p` occurs somewhere in `s`. */
  lemma ContainsIff(s: string, p: string)
    ensures Contains(s, p) <==> exists i :: 0 <= i <= |s| && OccursAt(s, p, i)
  {
    if Contains(s, p) {
      var i := IndexOf(s, p).value;
      assert OccursAt(s, p, i);
    }
  }

  /** An occurrence inside a prefix is an occurrence in the whole string. */
  lemma OccursInPrefix(s: string, p: string, n: nat, j: nat)
    requires n <= |s|
    requires OccursAt(s[..n], p, j)
    ensures OccursAt(s, p, j) && j + |p| <= n
  {
    assert s[..n][j..j + |p|] == s[j..j + |p|];
  }

  /** An occurrence inside a suffix is an occurrence in the whole string. */
  lemma OccursInSuffix(s: string, p: string, n: nat, j: nat)
    requires n <= |s|
    requires OccursAt(s[n..], p, j)
    ensures OccursAt(s, p, n + j)
  {
    assert s[n..][j..j + |p|] == s[n + j..n + j + |p|];
  }

  /** Pieces joined with `sep` between consecutive pieces. */
  function Join(pieces: seq<string>, sep: string): string
  {
    if |pieces| == 0 then ""
    else if |pieces| == 1 then pieces[0]
    else pieces[0] + sep + Join(pieces[1..], sep)
  }

  /** Python `s.split(sep)` and JavaScript `s.split(sep)` for a non-empty
      string separator: cut at every non-overlapping occurrence, scanning
      from the left. Joining the pieces back gives `s`, and no piece
      contains the separator. */
  function Split(s: string, sep: string): (r: seq<string>)
    requires |sep| > 0
    ensures |r| >= 1
    ensures Join(r, sep) == s
    ensures forall k :: 0 <= k < |r| ==> !Contains(r[k], sep)
    decreases |s|
  {
    match IndexOf(s, sep)
    case None => [s]
    case Some(i) =>
      var rest := Split(s[i + |sep|..], sep);
      FirstPieceClean(s, sep, i);
      assert s[i..i + |sep|] == sep;
      assert s == s[..i] + s[i..i + |sep|] + s[i + |sep|..];
      [s[..i]] + rest
  }

  /** The text before the first occurrence holds no occurrence. */
  lemma FirstPieceClean(s: string, sep: string, i: nat)
    requires |sep| > 0
    requires IndexOf(s, sep) == Some(i)
    ensures !Contains(s[..i], sep)
  {
    if Contains(s[..i], sep) {
      var j := IndexOf(s[..i], sep).value;
      OccursInPrefix(s, sep, i, j);
      assert false;
    }
  }

  /** Splitting on a one-character separator undoes joining pieces that do
      not contain it. */
  lemma {:induction false} SplitJoin(pieces: seq<string>, c: char)
    requires |pieces| >= 1
    requires forall k :: 0 <= k < |pieces| ==> c !in pieces[k]
    ensures Split(Join(pieces, [c]), [c]) == pieces
    decreases |pieces|
  {
    var s := Join(pieces, [c]);
    if |pieces| == 1 {
      forall j | 0 <= j <= |s|
        ensures !OccursAt(s, [c], j)
      {
        if j < |s| {
          assert s[j] != c;
        }
      }
    } else {
      var p0, rest := pieces[0], Join(pieces[1..], [c]);
      assert s == p0 + [c] + rest;
      assert OccursAt(s, [c], |p0|);
      forall j | 0 <= j < |p0|
        ensures !OccursAt(s, [c], j)
      {
        assert s[j] == p0[j];
      }
      assert IndexOf(s, [c]) == Some(|p0|);
      assert s[|p0| + 1..] == rest;
      SplitJoin(pieces[1..], c);
      assert [p0] + pieces[1..] == pieces;
    }
  }

  /** Python `next(s for s in pieces if h in s)` and JavaScript
      `pieces.find(s => s.includes(h))`: the position of the first piece
      holding `h`. */
  function FirstWith(pieces: seq<string>, h: string): (r: Option<nat>)
    ensures r.Some? ==> r.value < |pieces| && Contains(pieces[r.value], h)
    ensures r.Some? ==> forall j :: 0 <= j < r.value ==> !Contains(pieces[j], h)
    ensures r.None? ==> forall j :: 0 <= j < |pieces| ==> !Contains(pieces[j], h)
    decreases |pieces|
  {
    if pieces == [] then None
    else if Contains(pieces[0], h) then Some(0)
    else match FirstWith(pieces[1..], h)
      case None => None
      case Some(j) => Some(j + 1)
  }

  /** Python `s.replace(p, r)`: every non-overlapping occurrence, from the left. */
  function ReplaceAll(s: string, p: string, r: string): (t: string)
    requires |p| > 0
    ensures !Contains(s, p) ==> t == s
  {
    Join(Split(s, p), r)
  }

  /** JavaScript `s.replace(p, r)` with a string pattern: the first occurrence only. */
  function ReplaceFirst(s: string, p: string, r: string): (t: string)
    ensures !Contains(s, p) ==> t == s
    ensures Contains(s, p) ==> |t| == |s| - |p| + |r|
  {
    match IndexOf(s, p)
    case None => s
    case Some(i) => s[..i] + r + s[i + |p|..]
  }

  /** Replacing a text's own prefix by nothing leaves the rest. */
  lemma ReplaceFirstPrefix(h: string, c: string)
    ensures IndexOf(h + c, h) == Some(0)
    ensures ReplaceFirst(h + c, h, "") == c
  {
    assert (h + c)[0..|h|] == h;
    assert (h + c)[|h|..] == c;
  }

  /** The whitespace that Python `strip()` and JavaScript `trim()` remove
      (the ASCII part of their sets). */
  predicate IsSpace(c: char)
  {
    c == ' ' || c == '\t' || c == '\n' || c == '\r' || c == '\U{0B}' || c == '\U{0C}'
  }

  /** `s` without its leading whitespace. */
  function TrimStart(s: string): (r: string)
    ensures |r| <= |s| && r == s[|s| - |r|..]
    ensures forall k :: 0 <= k < |s| - |r| ==> IsSpace(s[k])
    ensures r == [] || !IsSpace(r[0])
  {
    if s != [] && IsSpace(s[0]) then TrimStart(s[1..]) else s
  }

  /** `s` without its trailing whitespace. */
  function TrimEnd(s: string): (r: string)
    ensures |r| <= |s| && r == s[..|r|]
    ensures forall k :: |r| <= k < |s| ==> IsSpace(s[k])
    ensures r == [] || !IsSpace(r[|r| - 1])
  {
    if s != [] && IsSpace(s[|s| - 1]) then TrimEnd(s[..|s| - 1]) else s
  }

  /** Python `strip()`, JavaScript `trim()`. */
  function Strip(s: string): string
  {
    TrimEnd(TrimStart(s))
  }

  /** `r` is the part of `s` starting at `i` once whitespace is removed from
      both ends: everything before and after it is whitespace, and it
      neither starts nor ends with whitespace. */
  predicate StrippedAt(s: string, r: string, i: nat)
  {
    i + |r| <= |s| && r == s[i..i + |r|]
    && (forall k :: 0 <= k < i ==> IsSpace(s[k]))
    && (forall k :: i + |r| <= k < |s| ==> IsSpace(s[k]))
    && (r == [] || (!IsSpace(r[0]) && !IsSpace(r[|r| - 1])))
  }

  /** Stripping keeps a contiguous middle part whose ends are not whitespace,
      and removes only whitespace around it. */
  lemma StripSpec(s: string)
    ensures exists i :: StrippedAt(s, Strip(s), i)
  {
    var t := TrimStart(s);
    var r := TrimEnd(t);
    var i := |s| - |t|;
    assert t == s[i..];
    assert r == t[..|r|];
    assert r == s[i..i + |r|];
    assert forall k :: i + |r| <= k < |s| ==> IsSpace(s[k]) by {
      forall k | i + |r| <= k < |s| ensures IsSpace(s[k]) {
        assert s[k] == t[k - i];
      }
    }
    assert r == Strip(s);
    assert StrippedAt(s, r, i);
  }

  /** Stripping twice is stripping once. */
  lemma StripIdempotent(s: string)
    ensures Strip(Strip(s)) == Strip(s)
  {
    var r := Strip(s);
    assert TrimStart(r) == r by {
      assert r == [] || !IsSpace(r[0]);
    }
    assert TrimEnd(r) == r by {
      assert r == [] || !IsSpace(r[|r| - 1]);
    }
  }

  predicate IsDigit(c: char)
  {
    '0' <= c <= '9'
  }

  predicate AllDigits(s: string)
  {
    forall k :: 0 <= k < |s| ==> IsDigit(s[k])
  }

  function DigitChar(d: nat): (c: char)
    requires d < 10
    ensures IsDigit(c) && c as int - '0' as int == d
  {
    (d + '0' as int) as char
  }

  /** The value of a string of decimal digits. */
  function DigitsValue(s: string): nat
    requires AllDigits(s)
  {
    if s == [] then 0
    else DigitsValue(s[..|s| - 1]) * 10 + (s[|s| - 1] as int - '0' as int)
  }

  /** The decimal rendering of a natural number, as Python `str` and
      JavaScript `toString` produce it: no leading zeros. */
  function NatToString(n: nat): (r: string)
    ensures |r| >= 1 && AllDigits(r)
    ensures r[0] == '0' ==> n == 0
    decreases n
  {
    if n < 10 then [DigitChar(n)] else NatToString(n / 10) + [DigitChar(n % 10)]
  }

  /** Reading the rendered digits back gives the number. */
  lemma {:induction false} NatToStringRoundTrip(n: nat)
    ensures DigitsValue(NatToString(n)) == n
    decreases n
  {
    var r := NatToString(n);
    if n >= 10 {
      NatToStringRoundTrip(n / 10);
      assert r[..|r| - 1] == NatToString(n / 10);
    }
  }

  /** The decimal rendering of an integer, with a leading `-` when negative. */
  function IntToString(i: int): string
  {
    if i < 0 then "-" + NatToString(-i) else NatToString(i)
  }

  /** A rendering starts with a minus sign exactly for a negative number. */
  lemma IntToStringSign(i: int)
    ensures |IntToString(i)| >= 1 && (IntToString(i)[0] == '-' <==> i < 0)
  {
    if i >= 0 {
      assert IsDigit(NatToString(i)[0]);
    }
  }

  /** A negative number renders as a minus sign and its magnitude. */
  lemma NegativeRendering(i: int)
    requires i < 0
    ensures IntToString(i)[1..] == NatToString(-i)
  {
    assert IntToString(i) == "-" + NatToString(-i);
  }

  /** Distinct natural numbers render differently. */
  lemma NatToStringInjective(a: nat, b: nat)
    requires NatToString(a) == NatToString(b)
    ensures a == b
  {
    NatToStringRoundTrip(a);
    NatToStringRoundTrip(b);
  }

  /** Distinct integers render differently. */
  lemma IntToStringInjective(a: int, b: int)
    requires IntToString(a) == IntToString(b)
    ensures a == b
  {
    IntToStringSign(a);
    IntToStringSign(b);
    if a < 0 {
      NegativeRendering(a);
      NegativeRendering(b);
      NatToStringInjective(-a, -b);
    } else {
      NatToStringInjective(a, b);
    }
  }

  function Pow10(k: nat): (r: nat)
    ensures r >= 1
  {
    if k == 0 then 1 else 10 * Pow10(k - 1)
  }

  /** The last `k` decimal digits of `r`, zero-padded on the left. */
  function Padded(r: nat, k: nat): (s: string)
    ensures |s| == k && AllDigits(s)
  {
    if k == 0 then "" else Padded(r / 10, k - 1) + [DigitChar(r % 10)]
  }

  lemma DivMod10(a: nat, r: nat)
    ensures (10 * a + r) / 10 == a + r / 10
    ensures (10 * a + r) % 10 == r % 10
  {
    var q, m := r / 10, r % 10;
    assert r == 10 * q + m;
    assert 10 * a + r == 10 * (a + q) + m;
  }

  /** Rendering `q * 10^k + r` (with `q > 0`, `r < 10^k`) is rendering `q`
      followed by `r` padded to `k` digits. */
  lemma {:induction false} NatToStringSplit(q: nat, r: nat, k: nat)
    requires q > 0 && r < Pow10(k)
    ensures NatToString(q * Pow10(k) + r) == NatToString(q) + Padded(r, k)
    decreases k
  {
    if k > 0 {
      var a := q * Pow10(k - 1);
      SplitStep(q, r, k);
      var n := 10 * a + r;
      DivMod10(a, r);
      NatToStringSplit(q, r / 10, k - 1);
      assert NatToString(n) == NatToString(a + r / 10) + [DigitChar(r % 10)];
    }
  }

  /** The arithmetic of one step of `NatToStringSplit`: peeling the last
      digit off `r` leaves a shorter split of the same shape. */
  lemma SplitStep(q: nat, r: nat, k: nat)
    requires q > 0 && k > 0 && r < Pow10(k)
    ensures q * Pow10(k) == 10 * (q * Pow10(k - 1))
    ensures r / 10 < Pow10(k - 1)
    ensures q * Pow10(k - 1) >= 1
  {
    var p := Pow10(k - 1);
    assert Pow10(k) == 10 * p;
    assert q * (10 * p) == 10 * (q * p);
    assert r == 10 * (r / 10) + r % 10;
    assert q * p >= p;
  }

  /** Python `f"{n:,}".replace(",", " ")` for a natural number: digits in
      groups of three from the right, separated by single spaces. */
  function GroupedNat(n: nat): string
    decreases n
  {
    if n < 1000 then NatToString(n) else GroupedNat(n / 1000) + " " + Padded(n % 1000, 3)
  }

  /** The digit groups of `n` from the left: the leading group, then the
      zero-padded groups of three. */
  function DigitGroups(n: nat): (r: seq<string>)
    ensures |r| >= 1
    decreases n
  {
    if n < 1000 then [NatToString(n)] else DigitGroups(n / 1000) + [Padded(n % 1000, 3)]
  }

  /** Joining one more piece appends the separator and that piece. */
  lemma {:induction false} JoinSnoc(pieces: seq<string>, p: string, sep: string)
    requires |pieces| >= 1
    ensures Join(pieces + [p], sep) == Join(pieces, sep) + sep + p
    decreases |pieces|
  {
    if |pieces| > 1 {
      assert (pieces + [p])[1..] == pieces[1..] + [p];
      JoinSnoc(pieces[1..], p, sep);
    } else {
      assert (pieces + [p])[1..] == [p];
    }
  }

  /** A number below 1000 has at most three digits. */
  lemma SmallNatDigits(n: nat)
    requires n < 1000
    ensures |NatToString(n)| <= 3
  {
    if n >= 10 {
      assert NatToString(n) == NatToString(n / 10) + [DigitChar(n % 10)];
      if n / 10 >= 10 {
        assert NatToString(n / 10) == NatToString(n / 100) + [DigitChar(n / 10 % 10)];
      }
    }
  }

  /** The grouped rendering is the digit groups joined by single spaces:
      a leading group of one to three digits, then groups of exactly three. */
  lemma {:induction false} GroupedNatGroups(n: nat)
    ensures GroupedNat(n) == Join(DigitGroups(n), " ")
    ensures 1 <= |DigitGroups(n)[0]| <= 3
    ensures forall k :: 1 <= k < |DigitGroups(n)| ==> |DigitGroups(n)[k]| == 3
    ensures forall k :: 0 <= k < |DigitGroups(n)| ==> AllDigits(DigitGroups(n)[k])
    decreases n
  {
    if n < 1000 {
      SmallNatDigits(n);
    } else {
      GroupedNatGroups(n / 1000);
      JoinSnoc(DigitGroups(n / 1000), Padded(n % 1000, 3), " ");
      var g := DigitGroups(n);
      assert g[0] == DigitGroups(n / 1000)[0];
      assert forall k :: 1 <= k < |g| - 1 ==> g[k] == DigitGroups(n / 1000)[k];
    }
  }

  /** Splitting the grouped rendering at its spaces gives back the groups. */
  lemma GroupedNatSplit(n: nat)
    ensures Split(GroupedNat(n), " ") == DigitGroups(n)
  {
    GroupedNatGroups(n);
    var g := DigitGroups(n);
    forall k | 0 <= k < |g|
      ensures ' ' !in g[k]
    {
      assert AllDigits(g[k]);
    }
    assert " " == [' '];
    SplitJoin(g, ' ');
  }

  /** The same for any integer: the sign stays in front of the first group. */
  function GroupedInt(i: int): string
  {
    if i < 0 then "-" + GroupedNat(-i) else GroupedNat(i)
  }

  /** `s` with every space removed. */
  function RemoveSpaces(s: string): string
  {
    if s == [] then "" else (if s[0] == ' ' then "" else [s[0]]) + RemoveSpaces(s[1..])
  }

  lemma {:induction false} RemoveSpacesAppend(a: string, b: string)
    ensures RemoveSpaces(a + b) == RemoveSpaces(a) + RemoveSpaces(b)
    decreases |a|
  {
    if a != [] {
      assert (a + b)[1..] == a[1..] + b;
      RemoveSpacesAppend(a[1..], b);
    } else {
      assert a + b == b;
    }
  }

  lemma {:induction false} RemoveSpacesDigits(s: string)
    requires AllDigits(s)
    ensures RemoveSpaces(s) == s
    decreases |s|
  {
    if s != [] {
      RemoveSpacesDigits(s[1..]);
      assert s == [s[0]] + s[1..];
    }
  }

  /** Grouping only inserts spaces: removing them gives the plain rendering. */
  lemma {:induction false} GroupedNatDigits(n: nat)
    ensures RemoveSpaces(GroupedNat(n)) == NatToString(n)
    decreases n
  {
    if n < 1000 {
      RemoveSpacesDigits(NatToString(n));
    } else {
      var q, r := n / 1000, n % 1000;
      assert GroupedNat(n) == GroupedNat(q) + " " + Padded(r, 3);
      GroupedNatDigits(q);
      assert n == q * Pow10(3) + r by { assert Pow10(3) == 1000; }
      NatToStringSplit(q, r, 3);
      RemoveSpacesGroup(GroupedNat(q), Padded(r, 3));
    }
  }

  /** The same for a signed number: the sign is kept in front. */
  lemma GroupedIntDigits(i: int)
    ensures RemoveSpaces(GroupedInt(i)) == IntToString(i)
  {
    if i < 0 {
      GroupedNatDigits(-i);
      RemoveSpacesAppend("-", GroupedNat(-i));
      assert RemoveSpaces("-") == "-" by { assert "-"[1..] == ""; }
    } else {
      GroupedNatDigits(i);
    }
  }

  /** Removing the spaces of a group appended after a separator. */
  lemma RemoveSpacesGroup(front: string, group: string)
    requires AllDigits(group)
    ensures RemoveSpaces(front + " " + group) == RemoveSpaces(front) + group
  {
    RemoveSpacesAppend(front + " ", group);
    RemoveSpacesAppend(front, " ");
    RemoveSpacesDigits(group);
  }
}

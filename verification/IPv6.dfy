/** The text form of an IPv6 address: one run of zero groups is written "::", and section 2.2
    of RFC 4291 reads it back. */
module IPv6Addresses {
  import opened Numerals

  /** An address as its eight 16-bit groups in host order. */
  predicate IsAddress(g: seq<nat>) { |g| == 8 && forall i :: 0 <= i < 8 ==> g[i] < 0x1_0000 }

  function Hex(n: nat): (s: string)
    ensures |s| > 0
  {
    Numeral(n, 16)
  }

  function Join(g: seq<nat>): string {
    if g == [] then "" else if |g| == 1 then Hex(g[0]) else Join(g[..|g| - 1]) + ":" + Hex(g[|g| - 1])
  }

  /** The index of the first zero group, and the end of the run it starts. */
  function FirstZero(g: seq<nat>, i: nat): (p: nat)
    requires i <= |g|
    ensures i <= p <= |g| && (p < |g| ==> g[p] == 0) && forall k :: i <= k < p ==> g[k] != 0
    decreases |g| - i
  {
    if i == |g| || g[i] == 0 then i else FirstZero(g, i + 1)
  }

  function RunEnd(g: seq<nat>, i: nat): (q: nat)
    requires i <= |g|
    ensures i <= q <= |g| && (q < |g| ==> g[q] != 0) && forall k :: i <= k < q ==> g[k] == 0
    decreases |g| - i
  {
    if i == |g| || g[i] != 0 then i else RunEnd(g, i + 1)
  }

  /** The text: the first run of zeros becomes "::", later zeros are printed. */
  function Text(g: seq<nat>): string {
    var p := FirstZero(g, 0);
    if p == |g| then Join(g) else Join(g[..p]) + "::" + Join(g[RunEnd(g, p)..])
  }

  /** What has been written after the first i groups, when the run lies from p to q. */
  function SoFar(g: seq<nat>, p: nat, q: nat, i: nat): string
    requires p <= q <= |g| && i <= |g|
  {
    if i <= p then Join(g[..i]) else if i <= q then Join(g[..p]) else Join(g[..p]) + "::" + Join(g[q..i])
  }

  lemma JoinNext(g: seq<nat>, a: nat, i: nat)
    requires a <= i < |g|
    ensures Join(g[a..i + 1]) == if a < i then Join(g[a..i]) + ":" + Hex(g[i]) else Hex(g[i])
  {
    var next := g[a..i + 1];
    assert next[..|next| - 1] == g[a..i] && next[|next| - 1] == g[i];
  }

  lemma BeforeRun(g: seq<nat>, p: nat, q: nat, i: nat)
    requires p <= q <= |g| && i < p
    ensures SoFar(g, p, q, i + 1) ==
            if i > 0 then SoFar(g, p, q, i) + ":" + Hex(g[i]) else SoFar(g, p, q, i) + Hex(g[i])
  {
    JoinNext(g, 0, i);
    assert g[0..i] == g[..i] && g[0..i + 1] == g[..i + 1];
  }

  lemma AtRunEnd(g: seq<nat>, p: nat, q: nat)
    requires p < q < |g|
    ensures SoFar(g, p, q, q + 1) == SoFar(g, p, q, q) + ":" + ":" + Hex(g[q])
  {
    JoinNext(g, q, q);
    var front := Join(g[..p]);
    assert front + ":" + ":" == front + "::";
  }

  lemma AfterRun(g: seq<nat>, p: nat, q: nat, i: nat)
    requires p < q < i < |g|
    ensures SoFar(g, p, q, i + 1) == SoFar(g, p, q, i) + ":" + Hex(g[i])
  {
    JoinNext(g, q, i);
    var front, back := Join(g[..p]) + "::", Join(g[q..i]);
    assert front + (back + ":" + Hex(g[i])) == front + back + ":" + Hex(g[i]);
  }

  /** The loop of IPv6Address::insert(). */
  method InsertGroups(addr: seq<nat>, ghost p: nat, ghost q: nat) returns (os: string)
    requires IsAddress(addr) && p == FirstZero(addr, 0) && q == RunEnd(addr, p)
    ensures os == Text(addr)
  {
    os := "";
    var used_zeros := false;
    assert addr[..0] == [];
    for i := 0 to 8
      invariant used_zeros <==> p < q < i
      invariant os == SoFar(addr, p, q, i)
    {
      if addr[i] == 0 && !used_zeros {
        continue;
      }
      if i < p {
        BeforeRun(addr, p, q, i);
      } else if i == q {
        AtRunEnd(addr, p, q);
      } else {
        AfterRun(addr, p, q, i);
      }
      if i > 0 && addr[i - 1] == 0 && !used_zeros {
        os := os + ":";
        used_zeros := true;
      }
      if i > 0 {
        os := os + ":";
      }
      os := os + Hex(addr[i]);
    }
    assert addr[..8] == addr && addr[8..8] == [];
    if !used_zeros && addr[7] == 0 {
      os := os + "::";
    }
  }

  /** IPv6Address::insert(). */
  method Insert(addr: seq<nat>, port: nat) returns (os: string)
    requires IsAddress(addr)
    ensures os == "[" + Text(addr) + "]:" + Numeral(port, 10)
  {
    ghost var p := FirstZero(addr, 0);
    var text := InsertGroups(addr, p, RunEnd(addr, p));
    os := "[" + text + "]:" + Numeral(port, 10);
  }

  // ---------------------------------------------------------------- reading the text back

  /** Hexadecimal numbers between colons; acc is the number in hand. */
  function ReadGroups(text: string, acc: nat): seq<nat> {
    if text == "" then [acc]
    else if text[0] == ':' then [acc] + ReadGroups(text[1..], 0)
    else ReadGroups(text[1..], 16 * acc + ValueOf(text[0]))
  }

  function ReadList(text: string): seq<nat> { if text == "" then [] else ReadGroups(text, 0) }

  predicate GapAt(text: string, i: nat) { i + 1 < |text| && text[i] == ':' && text[i + 1] == ':' }

  /** Where the first "::" is from i on, or the length of the text. */
  function FindGap(text: string, i: nat): (k: nat)
    requires i <= |text|
    ensures k <= |text| && (k < |text| ==> GapAt(text, k))
    decreases |text| - i
  {
    if i == |text| || GapAt(text, i) then i else FindGap(text, i + 1)
  }

  datatype Parsed = Address(groups: seq<nat>) | Malformed

  function Zeros(n: nat): seq<nat> { seq(n, _ => 0) }

  function Whole(g: seq<nat>): Parsed { if |g| == 8 then Address(g) else Malformed }

  function Filled(left: seq<nat>, right: seq<nat>): Parsed {
    if |left| + |right| < 8 then Address(left + Zeros(8 - |left| - |right|) + right) else Malformed
  }

  /** RFC 4291, section 2.2: eight groups, or "::" for one or more groups of zeros. */
  function Expand(text: string): Parsed {
    var k := FindGap(text, 0);
    if k == |text| then Whole(ReadList(text)) else Filled(ReadList(text[..k]), ReadList(text[k + 2..]))
  }

  lemma {:induction false} ReadGroupsSplit(s: string, t: string, acc: nat)
    ensures ReadGroups(s + ":" + t, acc) == ReadGroups(s, acc) + ReadGroups(t, 0)
  {
    var all := s + ":" + t;
    if s == "" {
      assert all[1..] == t;
    } else {
      assert all[1..] == s[1..] + ":" + t;
      if s[0] == ':' {
        ReadGroupsSplit(s[1..], t, 0);
      } else {
        ReadGroupsSplit(s[1..], t, 16 * acc + ValueOf(s[0]));
      }
    }
  }

  lemma {:induction false} ReadGroupsDigit(s: string, c: char, acc: nat)
    requires ':' !in s && c != ':'
    ensures |ReadGroups(s, acc)| == 1 && ReadGroups(s + [c], acc) == [16 * ReadGroups(s, acc)[0] + ValueOf(c)]
  {
    if s == "" {
      assert ([c])[1..] == "";
    } else {
      assert (s + [c])[1..] == s[1..] + [c];
      ReadGroupsDigit(s[1..], c, 16 * acc + ValueOf(s[0]));
    }
  }

  lemma {:induction false} ReadHex(n: nat)
    ensures ':' !in Hex(n) && ReadGroups(Hex(n), 0) == [n]
  {
    NumeralDigits(n, 16);
    if n < 16 {
      DigitValue(n);
      assert Hex(n)[1..] == "";
    } else {
      ReadHex(n / 16);
      DigitValue(n % 16);
      ReadGroupsDigit(Hex(n / 16), Digit(n % 16), 0);
    }
  }

  lemma {:induction false} ReadJoin(g: seq<nat>)
    ensures ReadList(Join(g)) == g
  {
    if |g| == 1 {
      ReadHex(g[0]);
    } else if |g| > 1 {
      var front, last := g[..|g| - 1], g[|g| - 1];
      ReadJoin(front);
      ReadHex(last);
      ReadGroupsSplit(Join(front), Hex(last), 0);
    }
  }

  /** A list of groups neither starts nor ends with a colon and has no two in a row. */
  ghost predicate Tight(s: string) {
    && (s != "" ==> s[0] != ':' && s[|s| - 1] != ':')
    && forall i: nat :: !GapAt(s, i)
  }

  lemma {:induction false} JoinTight(g: seq<nat>)
    ensures Tight(Join(g)) && (g != [] ==> Join(g) != "")
  {
    if |g| == 1 {
      ReadHex(g[0]);
    } else if |g| > 1 {
      var front, last := Join(g[..|g| - 1]), Hex(g[|g| - 1]);
      JoinTight(g[..|g| - 1]);
      ReadHex(g[|g| - 1]);
      var all := front + ":" + last;
      forall i: nat ensures !GapAt(all, i) {
        if i + 1 < |front| {
          assert !GapAt(front, i);
        }
      }
    }
  }

  lemma {:induction false} NoGapFound(text: string, i: nat, k: nat)
    requires i <= k <= |text| && (k < |text| ==> GapAt(text, k)) && forall j: nat :: i <= j < k ==> !GapAt(text, j)
    ensures FindGap(text, i) == k
    decreases k - i
  {
    if i < k {
      NoGapFound(text, i + 1, k);
    }
  }

  lemma NoOtherGap(left: string, right: string, i: nat)
    requires Tight(left) && Tight(right) && i != |left|
    ensures !GapAt(left + "::" + right, i)
  {
    var all, n := left + "::" + right, |left|;
    if i + 1 < n {
      assert !GapAt(left, i) && all[i] == left[i] && all[i + 1] == left[i + 1];
    } else if i + 1 == n {
      assert all[i] == left[n - 1];
    } else if i == n + 1 {
      assert right != "" ==> all[i + 1] == right[0];
    } else if i + 1 < |all| {
      assert !GapAt(right, i - n - 2) && all[i] == right[i - n - 2] && all[i + 1] == right[i + 1 - n - 2];
    }
  }

  /** Two tight lists around a "::" have it between them and nowhere else. */
  lemma OnlyGap(left: string, right: string)
    requires Tight(left) && Tight(right)
    ensures forall i: nat :: GapAt(left + "::" + right, i) <==> i == |left|
    ensures FindGap(left + "::" + right, 0) == |left|
  {
    var all := left + "::" + right;
    forall i: nat | i != |left| ensures !GapAt(all, i) {
      NoOtherGap(left, right, i);
    }
    NoGapFound(all, 0, |left|);
  }

  /** There is at most one "::". */
  ghost predicate OneGap(s: string) { forall i: nat, j: nat :: GapAt(s, i) && GapAt(s, j) ==> i == j }

  lemma OneGapOnly(a: seq<nat>, b: seq<nat>)
    ensures OneGap(Join(a) + "::" + Join(b))
  {
    JoinTight(a);
    JoinTight(b);
    OnlyGap(Join(a), Join(b));
  }

  lemma CutGap(a: seq<nat>, b: seq<nat>, text: string, k: nat)
    requires text == Join(a) + "::" + Join(b) && k == |Join(a)|
    ensures FindGap(text, 0) == k && k + 2 <= |text| && text[..k] == Join(a) && text[k + 2..] == Join(b)
  {
    JoinTight(a);
    JoinTight(b);
    OnlyGap(Join(a), Join(b));
  }

  lemma GapExpands(a: seq<nat>, b: seq<nat>)
    ensures Expand(Join(a) + "::" + Join(b)) == Filled(a, b)
  {
    var text, k := Join(a) + "::" + Join(b), |Join(a)|;
    CutGap(a, b, text, k);
    ReadJoin(a);
    ReadJoin(b);
  }

  lemma ListExpands(g: seq<nat>)
    ensures OneGap(Join(g)) && Expand(Join(g)) == Whole(g)
  {
    JoinTight(g);
    ReadJoin(g);
    NoGapFound(Join(g), 0, |Join(g)|);
  }

  lemma RunFilled(g: seq<nat>, p: nat, q: nat)
    requires |g| == 8 && p < q <= 8 && forall k :: p <= k < q ==> g[k] == 0
    ensures Filled(g[..p], g[q..]) == Address(g)
  {
    assert g == g[..p] + Zeros(q - p) + g[q..];
  }

  /** Round trip: for every address the text has at most one "::", and expanding it gives back
      the same eight groups. */
  lemma TextExpands(g: seq<nat>)
    requires IsAddress(g)
    ensures OneGap(Text(g)) && Expand(Text(g)) == Address(g)
  {
    var p := FirstZero(g, 0);
    if p == 8 {
      ListExpands(g);
    } else {
      var q := RunEnd(g, p);
      OneGapOnly(g[..p], g[q..]);
      GapExpands(g[..p], g[q..]);
      RunFilled(g, p, q);
    }
  }

  /** The first run of zero groups, from p to q, is what "::" stands for, and only that one; without
      a zero group there is no "::". */
  lemma FirstRunIsGap(g: seq<nat>, p: nat, q: nat)
    requires IsAddress(g) && p <= q <= 8 && (p < q || p == 8)
    requires forall k :: 0 <= k < p ==> g[k] != 0
    requires (forall k :: p <= k < q ==> g[k] == 0) && (q < 8 ==> g[q] != 0)
    ensures Text(g) == if p == 8 then Join(g) else Join(g[..p]) + "::" + Join(g[q..])
    ensures p == 8 ==> forall i: nat :: !GapAt(Text(g), i)
  {
    FirstZeroIs(g, 0, p);
    if p < 8 {
      RunEndIs(g, p, q);
    } else {
      JoinTight(g);
    }
  }

  lemma {:induction false} FirstZeroIs(g: seq<nat>, i: nat, p: nat)
    requires i <= p <= |g| && (p < |g| ==> g[p] == 0) && forall k :: i <= k < p ==> g[k] != 0
    ensures FirstZero(g, i) == p
    decreases p - i
  {
    if i < p { FirstZeroIs(g, i + 1, p); }
  }

  lemma {:induction false} RunEndIs(g: seq<nat>, i: nat, q: nat)
    requires i <= q <= |g| && (q < |g| ==> g[q] != 0) && forall k :: i <= k < q ==> g[k] == 0
    ensures RunEnd(g, i) == q
    decreases q - i
  {
    if i < q { RunEndIs(g, i + 1, q); }
  }

  /** No leading zeros, as section 2.2 asks. */
  lemma {:induction false} NoLeadingZero(n: nat)
    requires n > 0
    ensures Hex(n)[0] != '0'
  {
    if n >= 16 {
      NoLeadingZero(n / 16);
    } else {
      DigitValue(n);
    }
  }

  /** Each group is printed with one to four digits, as section 2.2 asks. */
  lemma GroupDigits(n: nat)
    requires n < 0x1_0000
    ensures 1 <= |Hex(n)| <= 4 && forall i :: 0 <= i < |Hex(n)| ==> IsDigit(Hex(n)[i])
  {
    assert Power(16, 2) == 0x100 && Power(16, 4) == 0x1_0000;
    NumeralLength(n, 16, 4);
    NumeralDigits(n, 16);
  }
}

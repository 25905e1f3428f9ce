/** backend/apps/hotel/models.py, lines 178-192: minting folio numbers. */
module Folio {
  import opened Wrappers
  import opened Rounding
  import opened Digits

  /** f"{prefix}{n:0wd}"; the source pads to w = 4 digits. */
  function Number(prefix: string, n: nat, w: nat): string {
    prefix + ZeroPadded(n, w)
  }

  /** filter(startswith=prefix).order_by("-folio_number").first(), over a branch's rows. */
  function Last(rows: seq<string>, prefix: string): Option<string> {
    if rows == [] then None
    else
      var front, s := Last(rows[..|rows| - 1], prefix), rows[|rows| - 1];
      if StartsWith(s, prefix) && (front.None? || Less(front.value, s)) then Some(s) else front
  }

  /** s.rsplit("-", 1)[-1] */
  function AfterLastDash(s: string): string {
    if s == "" || s[|s| - 1] == '-' then "" else AfterLastDash(s[..|s| - 1]) + [s[|s| - 1]]
  }

  /** next_number; None when int() raises on a suffix that is not a number. */
  function NextNumber(rows: seq<string>, prefix: string, w: nat): Option<string> {
    var last := Last(rows, prefix);
    if last.None? then Some(Number(prefix, 1, w))
    else
      var suffix := AfterLastDash(last.value);
      if suffix == "" || !AllDigits(suffix) then None
      else Some(Number(prefix, Value(suffix) + 1, w))
  }

  /** Open a folio: mint and insert; None when the unique constraint refuses the row. */
  function Mint(rows: seq<string>, prefix: string, w: nat): Option<seq<string>> {
    var number := NextNumber(rows, prefix, w);
    if number.None? || number.value in rows then None else Some(rows + [number.value])
  }

  /** Open n folios in a row, stopping at the first refusal. */
  function Repeat(mint: seq<string> -> Option<seq<string>>, rows: seq<string>, n: nat): seq<string>
    decreases n
  {
    if n == 0 || mint(rows).None? then rows else Repeat(mint, mint(rows).value, n - 1)
  }

  function MintAll(rows: seq<string>, prefix: string, w: nat, n: nat): seq<string> {
    Repeat((rows: seq<string>) => Mint(rows, prefix, w), rows, n)
  }

  /** The numbers 1..k in order. */
  function Numbers(prefix: string, k: nat, w: nat): seq<string> {
    seq(k, j requires 0 <= j => Number(prefix, j + 1, w))
  }

  // ---- Facts ---------------------------------------------------------------

  lemma {:induction false} SuffixOf(prefix: string, digits: string)
    requires prefix != "" && prefix[|prefix| - 1] == '-' && AllDigits(digits)
    ensures AfterLastDash(prefix + digits) == digits
  {
    var s := prefix + digits;
    if digits == "" {
      assert s == prefix;
    } else {
      var front := digits[..|digits| - 1];
      assert s[..|s| - 1] == prefix + front;
      assert s[|s| - 1] == digits[|digits| - 1] && IsDigit(digits[|digits| - 1]);
      SuffixOf(prefix, front);
    }
  }

  lemma FitsWidth(n: nat, w: nat)
    requires 0 < w && n < Pow10(w)
    ensures ZeroPadded(n, w) == Padded(n, w)
  {
    WidthBound(n);
    if w < Width(n) {
      PowGrows(w, Width(n) - 1);
    }
  }

  lemma {:induction false} PowerOfTenString(w: nat)
    ensures Width(Pow10(w)) == w + 1
    ensures Decimal(Pow10(w))[0] == '1'
  {
    if w != 0 {
      PowerOfTenString(w - 1);
      assert Pow10(w) / 10 == Pow10(w - 1);
    }
  }

  lemma {:induction false} AllNines(w: nat)
    requires 0 < w
    ensures Padded(Pow10(w) - 1, w)[0] == '9'
  {
    if w != 1 {
      AllNines(w - 1);
      assert Pow10(w) == 10 * Pow10(w - 1);
      assert (Pow10(w) - 1) / 10 == Pow10(w - 1) - 1;
    } else {
      assert Pow10(1) == 10 && Padded(9, 1) == "9";
    }
  }

  lemma LessByFirst(a: string, b: string)
    requires a != "" && b != "" && b[0] < a[0]
    ensures !Less(a, b)
  {
  }

  lemma NinesAndOne(w: nat) returns (nines: string, one: string)
    requires 0 < w
    ensures nines == ZeroPadded(Pow10(w) - 1, w) && nines != "" && nines[0] == '9'
    ensures one == ZeroPadded(Pow10(w), w) && one != "" && one[0] == '1'
  {
    nines, one := Padded(Pow10(w) - 1, w), Decimal(Pow10(w));
    FitsWidth(Pow10(w) - 1, w);
    AllNines(w);
    PowerOfTenString(w);
  }

  lemma OverflowIsLess(w: nat)
    requires 0 < w
    ensures !Less(ZeroPadded(Pow10(w) - 1, w), ZeroPadded(Pow10(w), w))
  {
    var nines, one := NinesAndOne(w);
    LessByFirst(nines, one);
  }

  /** String order follows the sequence as long as the suffixes keep their width. */
  lemma NewestIsGreatest(prefix: string, k: nat, w: nat)
    requires 0 < w && 1 < k <= Pow10(w)
    ensures Less(Number(prefix, k - 1, w), Number(prefix, k, w)) <==> k < Pow10(w)
  {
    LessUnderPrefix(prefix, ZeroPadded(k - 1, w), ZeroPadded(k, w));
    if k < Pow10(w) {
      FitsWidth(k - 1, w);
      FitsWidth(k, w);
      LessIsNumeric(k - 1, k, w);
    } else {
      OverflowIsLess(w);
    }
  }

  /** The greatest string is the newest number, and sticks at the last of full width. */
  lemma {:induction false} LastMinted(others: seq<string>, prefix: string, k: nat, w: nat)
    requires forall s <- others :: !StartsWith(s, prefix)
    requires 0 < w && k <= Pow10(w)
    ensures Last(others + Numbers(prefix, k, w), prefix)
         == if k == 0 then None else Some(Number(prefix, if k < Pow10(w) then k else k - 1, w))
  {
    var rows := others + Numbers(prefix, k, w);
    if k == 0 {
      assert rows == others;
      NoneMatch(others, prefix);
    } else {
      LastMinted(others, prefix, k - 1, w);
      assert rows[..|rows| - 1] == others + Numbers(prefix, k - 1, w);
      assert rows[|rows| - 1] == Number(prefix, k, w);
      if 1 < k {
        NewestIsGreatest(prefix, k, w);
      }
    }
  }

  lemma {:induction false} NoneMatch(rows: seq<string>, prefix: string)
    requires forall s <- rows :: !StartsWith(s, prefix)
    ensures Last(rows, prefix) == None
  {
    if rows != [] {
      NoneMatch(rows[..|rows| - 1], prefix);
    }
  }

  lemma NumbersDiffer(prefix: string, m: nat, n: nat, w: nat)
    requires m != n
    ensures Number(prefix, m, w) != Number(prefix, n, w)
  {
    ValueRoundTrip(m, w);
    ValueRoundTrip(n, w);
    assert Number(prefix, m, w)[|prefix|..] == ZeroPadded(m, w);
    assert Number(prefix, n, w)[|prefix|..] == ZeroPadded(n, w);
  }

  lemma FreshNumber(others: seq<string>, prefix: string, k: nat, w: nat)
    requires forall s <- others :: !StartsWith(s, prefix)
    ensures Number(prefix, k + 1, w) !in others + Numbers(prefix, k, w)
  {
    var rows := others + Numbers(prefix, k, w);
    assert StartsWith(Number(prefix, k + 1, w), prefix);
    forall i | 0 <= i < |rows| ensures rows[i] != Number(prefix, k + 1, w) {
      if i < |others| {
        assert rows[i] in others;
      } else {
        NumbersDiffer(prefix, i - |others| + 1, k + 1, w);
      }
    }
  }

  lemma NextIs(others: seq<string>, prefix: string, k: nat, w: nat)
    requires forall s <- others :: !StartsWith(s, prefix)
    requires prefix != "" && prefix[|prefix| - 1] == '-' && 0 < w && k <= Pow10(w)
    ensures NextNumber(others + Numbers(prefix, k, w), prefix, w)
         == Some(Number(prefix, if k < Pow10(w) then k + 1 else k, w))
  {
    LastMinted(others, prefix, k, w);
    if k != 0 {
      var m := if k < Pow10(w) then k else k - 1;
      SuffixOf(prefix, ZeroPadded(m, w));
      ValueRoundTrip(m, w);
    }
  }

  /** Minting raises exactly when the greatest number of the prefix ends in something that is
      not a number; else it proposes that number plus one. */
  lemma NextExactly(rows: seq<string>, prefix: string, w: nat)
    ensures var last := Last(rows, prefix);
      if last.None? then NextNumber(rows, prefix, w) == Some(Number(prefix, 1, w))
      else NextNumber(rows, prefix, w).None?
           <==> AfterLastDash(last.value) == "" || exists c <- AfterLastDash(last.value) :: c < '0' || '9' < c
  {
  }

  lemma NextOfNumber(rows: seq<string>, prefix: string, w: nat, n: nat)
    requires Last(rows, prefix).Some? && AfterLastDash(Last(rows, prefix).value) == ZeroPadded(n, w)
    ensures NextNumber(rows, prefix, w) == Some(Number(prefix, n + 1, w))
  {
    ValueRoundTrip(n, w);
  }

  /** Mint number k + 1 succeeds, and is the next number in sequence, exactly while k is
      below 10^w. After 10^w mints the last number is proposed again and the insert is
      refused, so with w = 4 a branch opens at most ten thousand folios a year. */
  lemma MintsInSequence(others: seq<string>, prefix: string, k: nat, w: nat)
    requires forall s <- others :: !StartsWith(s, prefix)
    requires prefix != "" && prefix[|prefix| - 1] == '-' && 0 < w && k <= Pow10(w)
    ensures Mint(others + Numbers(prefix, k, w), prefix, w)
         == if k < Pow10(w) then Some(others + Numbers(prefix, k + 1, w)) else None
  {
    NextIs(others, prefix, k, w);
    if k < Pow10(w) {
      FreshNumber(others, prefix, k, w);
      OneMore(others, prefix, k, w);
    } else {
      OneMore(others, prefix, k - 1, w);
    }
  }

  lemma OneMore(others: seq<string>, prefix: string, k: nat, w: nat)
    ensures others + Numbers(prefix, k, w) + [Number(prefix, k + 1, w)] == others + Numbers(prefix, k + 1, w)
    ensures Number(prefix, k + 1, w) in others + Numbers(prefix, k + 1, w)
  {
  }

  lemma {:induction false} RepeatStops(mint: seq<string> -> Option<seq<string>>, at: nat -> seq<string>,
                                       k: nat, limit: nat, n: nat)
    requires forall j: nat :: j < limit ==> mint(at(j)) == Some(at(j + 1))
    requires mint(at(limit)).None? && k <= limit
    ensures Repeat(mint, at(k), n) == at(if k + n < limit then k + n else limit)
    decreases n
  {
    if n != 0 && k < limit {
      RepeatStops(mint, at, k + 1, limit, n - 1);
    }
  }

  lemma MintsStop(others: seq<string>, prefix: string, w: nat, n: nat)
    requires forall s <- others :: !StartsWith(s, prefix)
    requires prefix != "" && prefix[|prefix| - 1] == '-' && 0 < w
    ensures MintAll(others, prefix, w, n) == others + Numbers(prefix, if n < Pow10(w) then n else Pow10(w), w)
  {
    var mint := (rows: seq<string>) => Mint(rows, prefix, w);
    var at := (k: nat) => others + Numbers(prefix, k, w);
    var limit: nat := Pow10(w);
    forall j: nat | j < limit ensures mint(at(j)) == Some(at(j + 1)) {
      MintsInSequence(others, prefix, j, w);
    }
    MintsInSequence(others, prefix, limit, w);
    RepeatStops(mint, at, 0, limit, n);
    assert at(0) == others;
  }

  /** However many folios a branch opens in a year, in a table with none of that year's to
      begin with, the numbers held are 0001, 0002, ... without gap or repeat, up to the
      ten-thousandth, which is 10000. */
  lemma MintedRun(others: seq<string>, prefix: string, n: nat)
    requires forall s <- others :: !StartsWith(s, prefix)
    requires prefix != "" && prefix[|prefix| - 1] == '-'
    ensures MintAll(others, prefix, 4, n) == others + Numbers(prefix, if n < 10_000 then n else 10_000, 4)
  {
    assert Pow10(4) == 10_000;
    MintsStop(others, prefix, 4, n);
  }
}

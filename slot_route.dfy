/**
 * The route parameter of the slot page and the headline fields of the page.
 *
 * The parameter `slotOrHash` names either a block root, written as 64 hex
 * digits (every "0x" in it is removed first), or a slot, written in decimal
 * and below 2^31. The decoding functions of Go's `encoding/hex` and
 * `strconv.ParseInt(_, 10, 64)` are written out as far as the route needs
 * them: whether they succeed and what value they produce.
 */
module SlotRoute {
  import opened Wrappers
  import opened BeaconTypes
  import opened GoInts

  // ----------------------------------------------------------------------
  // Decimal digits
  // ----------------------------------------------------------------------

  predicate IsDigit(c: char) { '0' <= c <= '9' }

  predicate AllDigits(s: string)
  {
    forall i :: 0 <= i < |s| ==> IsDigit(s[i])
  }

  function DigitChar(d: nat): (c: char)
    requires d < 10
    ensures IsDigit(c)
  {
    ('0' as int + d) as char
  }

  /** Go's `%v` of an unsigned integer: its decimal digits, without leading zeros. */
  function NatToString(n: nat): (r: string)
    ensures |r| >= 1 && AllDigits(r)
    ensures r[0] != '0' || n == 0
    decreases n
  {
    if n < 10 then [DigitChar(n)] else NatToString(n / 10) + [DigitChar(n % 10)]
  }

  /** The value of a string of decimal digits, most significant first. */
  function DigitsValue(s: string): nat
    requires AllDigits(s)
    decreases |s|
  {
    if |s| == 0 then 0 else DigitsValue(s[..|s| - 1]) * 10 + (s[|s| - 1] as int - '0' as int)
  }

  /** Reading back the digits of `n` gives `n`. */
  lemma {:induction false} DecimalRoundTrip(n: nat)
    ensures DigitsValue(NatToString(n)) == n
    decreases n
  {
    if n >= 10 {
      DecimalRoundTrip(n / 10);
      var s := NatToString(n);
      assert s[..|s| - 1] == NatToString(n / 10);
    }
  }

  /** Different numbers are written differently. */
  lemma NatToStringInjective(a: nat, b: nat)
    requires NatToString(a) == NatToString(b)
    ensures a == b
  {
    DecimalRoundTrip(a);
    DecimalRoundTrip(b);
  }

  function Pow10(k: nat): (r: nat)
    ensures r >= 1
  {
    if k == 0 then 1 else 10 * Pow10(k - 1)
  }

  /** A number below 10^k has at most k digits. */
  lemma {:induction false} NatToStringLength(n: nat, k: nat)
    requires k >= 1 && n < Pow10(k)
    ensures |NatToString(n)| <= k
    decreases k
  {
    if n >= 10 {
      NatToStringLength(n / 10, k - 1);
    }
  }

  /**
   * `strconv.ParseInt(s, 10, 64)` on success: an optional sign, at least
   * one decimal digit and nothing else, with a value in the int64 range.
   */
  function ParseInt64(s: string): (r: Option<int>)
    ensures r.Some? ==> -Int64Bound <= r.value < Int64Bound
  {
    var signed := |s| > 0 && (s[0] == '+' || s[0] == '-');
    var digits := if signed then s[1..] else s;
    if |digits| == 0 || !AllDigits(digits) then None
    else
      var v: int := if signed && s[0] == '-' then -(DigitsValue(digits) as int) else DigitsValue(digits);
      if -Int64Bound <= v < Int64Bound then Some(v) else None
  }

  /** The decimal form of a number in the int64 range parses back to it. */
  lemma ParseDecimal(n: nat)
    requires n < Int64Bound
    ensures ParseInt64(NatToString(n)) == Some(n)
  {
    DecimalRoundTrip(n);
  }

  // ----------------------------------------------------------------------
  // Hex digits
  // ----------------------------------------------------------------------

  predicate IsHexDigit(c: char)
  {
    '0' <= c <= '9' || 'a' <= c <= 'f' || 'A' <= c <= 'F'
  }

  function HexValue(c: char): (v: nat)
    requires IsHexDigit(c)
    ensures v < 16
  {
    if '0' <= c <= '9' then c as int - '0' as int
    else if 'a' <= c <= 'f' then c as int - 'a' as int + 10
    else c as int - 'A' as int + 10
  }

  function HexChar(v: nat): (c: char)
    requires v < 16
    ensures IsHexDigit(c) && HexValue(c) == v && c != 'x'
  {
    if v < 10 then ('0' as int + v) as char else ('a' as int + v - 10) as char
  }

  /**
   * `hex.DecodeString`: succeeds exactly on an even number of hex digits of
   * either case, each pair giving one byte, high nibble first.
   */
  function HexDecode(s: string): (r: Option<Bytes>)
    ensures r.Some? <==> |s| % 2 == 0 && forall i :: 0 <= i < |s| ==> IsHexDigit(s[i])
    ensures r.Some? ==> 2 * |r.value| == |s|
    decreases |s|
  {
    if |s| == 0 then Some([])
    else if |s| == 1 || !IsHexDigit(s[0]) || !IsHexDigit(s[1]) then None
    else match HexDecode(s[2..])
      case None =>
        assert |s| % 2 != 0 || !(forall i :: 0 <= i < |s| ==> IsHexDigit(s[i])) by {
          if |s| % 2 == 0 {
            var j :| 0 <= j < |s| - 2 && !IsHexDigit(s[2..][j]);
            assert !IsHexDigit(s[j + 2]);
          }
        }
        None
      case Some(rest) => Some([(HexValue(s[0]) * 16 + HexValue(s[1])) as byte] + rest)
  }

  /** `hex.EncodeToString`: two lower-case hex digits per byte. */
  function HexEncode(b: Bytes): (r: string)
    ensures |r| == 2 * |b|
    ensures forall i :: 0 <= i < |r| ==> IsHexDigit(r[i]) && r[i] != 'x'
  {
    if |b| == 0 then [] else [HexChar(b[0] as int / 16), HexChar(b[0] as int % 16)] + HexEncode(b[1..])
  }

  /** Decoding an encoded byte string gives it back. */
  lemma {:induction false} HexRoundTrip(b: Bytes)
    ensures HexDecode(HexEncode(b)) == Some(b)
  {
    if |b| > 0 {
      var s := HexEncode(b);
      assert s[2..] == HexEncode(b[1..]);
      HexRoundTrip(b[1..]);
      assert b == [b[0]] + b[1..];
    }
  }

  // ----------------------------------------------------------------------
  // Removing "0x"
  // ----------------------------------------------------------------------

  /**
   * `strings.Replace(s, "0x", "", -1)`: scanning left to right, every
   * occurrence of "0x" that does not overlap an earlier one is removed.
   */
  function Strip0x(s: string): (r: string)
    ensures |r| <= |s|
    ensures forall c :: c in r ==> c in s
    decreases |s|
  {
    if |s| == 0 then []
    else if |s| >= 2 && s[0] == '0' && s[1] == 'x' then Strip0x(s[2..])
    else [s[0]] + Strip0x(s[1..])
  }

  /** A string without an 'x' has no "0x" to remove. */
  lemma {:induction false} Strip0xKeepsPlainText(s: string)
    requires forall i :: 0 <= i < |s| ==> s[i] != 'x'
    ensures Strip0x(s) == s
    decreases |s|
  {
    if |s| > 0 {
      Strip0xKeepsPlainText(s[1..]);
      assert s == [s[0]] + s[1..];
    }
  }

  /** A leading "0x" in front of text without an 'x' is dropped and nothing else changes. */
  lemma Strip0xPrefix(t: string)
    requires forall i :: 0 <= i < |t| ==> t[i] != 'x'
    ensures Strip0x("0x" + t) == t
  {
    assert ("0x" + t)[2..] == t;
    Strip0xKeepsPlainText(t);
  }

  /** Removal is a single pass: what is left can again contain "0x". */
  lemma Strip0xSinglePass()
    ensures Strip0x("00xx") == "0x"
  {
    assert "00xx"[1..] == "0xx";
    assert "0xx"[2..] == "x";
    assert Strip0x("x") == "x" by {
      assert "x"[1..] == [];
    }
  }

  // ----------------------------------------------------------------------
  // The route (handlers/slot.go:43-56)
  // ----------------------------------------------------------------------

  /** Slot numbers from the route must stay below 2^31; larger ones are "not found". */
  const MaxRouteSlot: int := 2147483648

  /**
   * A lookup by slot (blockSlot >= 0, empty root) or by root (blockSlot =
   * -1); a negative parsed number also gives a lookup with an empty root.
   */
  datatype Route = Lookup(blockSlot: int, blockRoot: Bytes) | NotFound

  /** 64 hex digits: what the route accepts as a block root. */
  predicate IsHexRoot(s: string)
  {
    |s| == 64 && forall i :: 0 <= i < |s| ==> IsHexDigit(s[i])
  }

  /**
   * Root lookup when the parameter with every "0x" removed is 64 hex digits;
   * otherwise the unstripped parameter is parsed as a decimal int64, and a
   * failed parse or a value of 2^31 or more is "not found".
   */
  function ClassifyRoute(raw: string): (r: Route)
    ensures IsHexRoot(Strip0x(raw)) ==>
      && r.Lookup? && r.blockSlot == -1 && |r.blockRoot| == 32
      && HexDecode(Strip0x(raw)) == Some(r.blockRoot)
    ensures !IsHexRoot(Strip0x(raw)) ==>
      (r.NotFound? <==> ParseInt64(raw).None? || ParseInt64(raw).value >= MaxRouteSlot)
    ensures !IsHexRoot(Strip0x(raw)) && r.Lookup? ==>
      && r.blockRoot == [] && Some(r.blockSlot) == ParseInt64(raw)
      && -Int64Bound <= r.blockSlot < MaxRouteSlot
  {
    var slotOrHash := Strip0x(raw);
    var blockRootHash := HexDecode(slotOrHash);
    if blockRootHash.Some? && |slotOrHash| == 64 then Lookup(-1, blockRootHash.value)
    else match ParseInt64(raw)
      case None => NotFound
      case Some(blockSlot) => if blockSlot >= MaxRouteSlot then NotFound else Lookup(blockSlot, [])
  }

  /** A 32-byte root written in hex, with or without "0x", is looked up by that root. */
  lemma RootRoute(root: Bytes)
    requires |root| == 32
    ensures ClassifyRoute(HexEncode(root)) == Lookup(-1, root)
    ensures ClassifyRoute("0x" + HexEncode(root)) == Lookup(-1, root)
  {
    HexRoundTrip(root);
    Strip0xKeepsPlainText(HexEncode(root));
    Strip0xPrefix(HexEncode(root));
  }

  /** A slot below 2^31 written in decimal is looked up by that slot. */
  lemma SlotRoute(n: nat)
    requires n < MaxRouteSlot
    ensures ClassifyRoute(NatToString(n)) == Lookup(n, [])
  {
    assert Pow10(10) == 10000000000;
    NatToStringLength(n, 10);
    ParseDecimal(n);
  }

  /** A slot of 2^31 or more that parses as int64 is not found. */
  lemma LargeSlotNotFound(n: nat)
    requires MaxRouteSlot <= n < Int64Bound
    ensures ClassifyRoute(NatToString(n)) == NotFound
  {
    assert Pow10(10) == 10000000000;
    assert Pow10(19) == 10000000000000000000;
    NatToStringLength(n, 19);
    ParseDecimal(n);
  }

  /**
   * The decimal parse reads the parameter before "0x" is removed, so a slot
   * written with a "0x" prefix is not found.
   */
  lemma PrefixedSlotNotFound(n: nat)
    requires n < Int64Bound
    ensures ClassifyRoute("0x" + NatToString(n)) == NotFound
  {
    var s := NatToString(n);
    assert Pow10(10) == 10000000000;
    assert Pow10(19) == 10000000000000000000;
    NatToStringLength(n, 19);
    Strip0xPrefix(s);
    var raw := "0x" + s;
    assert raw[1] == 'x' && !IsDigit(raw[1]);
    assert !AllDigits(raw);
    assert !AllDigits(raw[1..]) by {
      assert raw[1..][0] == 'x';
    }
  }

  // ----------------------------------------------------------------------
  // The headline fields (handlers/slot.go:105-135)
  // ----------------------------------------------------------------------

  datatype SlotStatus = Missed | Found | Orphaned

  datatype SlotHeadline = SlotHeadline(
    slot: nat, epoch: nat, epochFinalized: bool, nextSlot: nat, previousSlot: nat,
    status: SlotStatus, proposer: nat, proposerName: string)

  /**
   * The page fields of `slot`: epoch, finality, the neighbouring slots (as
   * uint64, so the slot before 0 is 2^64 - 1), the status, and the proposer
   * (from the block when there is one, otherwise from the epoch's proposer
   * duties when they were loaded, 0 for a slot without a duty). `epochOfSlot`
   * and `names` stand for `utils.EpochOfSlot` and `GetValidatorName`.
   */
  function Headline(
    slot: nat, finalizedHeadSlot: nat, blockData: Option<CombinedBlock>,
    assignments: Option<EpochAssignments>, epochOfSlot: nat -> nat, names: nat -> string): (r: SlotHeadline)
    requires slot < Uint64Modulus
    ensures r.slot == slot && r.epoch == epochOfSlot(slot)
    ensures r.epochFinalized <==> finalizedHeadSlot >= slot
    ensures r.nextSlot < Uint64Modulus && r.previousSlot < Uint64Modulus
    ensures Dec64(r.nextSlot) == slot && Inc64(r.previousSlot) == slot
    ensures r.status == Missed <==> blockData.None?
    ensures r.status == Orphaned <==> blockData.Some? && blockData.value.orphaned
    ensures blockData.Some? ==>
      r.proposer == blockData.value.block.message.proposerIndex && r.proposerName == names(r.proposer)
    ensures blockData.None? && assignments.None? ==> r.proposer == 0 && r.proposerName == ""
    ensures blockData.None? && assignments.Some? ==>
      && (slot in assignments.value.proposerAssignments ==>
            r.proposer == assignments.value.proposerAssignments[slot])
      && (slot !in assignments.value.proposerAssignments ==> r.proposer == 0)
      && r.proposerName == names(r.proposer)
  {
    var base := SlotHeadline(slot, epochOfSlot(slot), finalizedHeadSlot >= slot,
                             Inc64(slot), Dec64(slot), Missed, 0, "");
    match blockData
    case None =>
      (match assignments
       case None => base
       case Some(a) =>
         var proposer := if slot in a.proposerAssignments then a.proposerAssignments[slot] else 0;
         base.(proposer := proposer, proposerName := names(proposer)))
    case Some(b) =>
      var proposer := b.block.message.proposerIndex;
      base.(status := if b.orphaned then Orphaned else Found, proposer := proposer,
            proposerName := names(proposer))
  }
}

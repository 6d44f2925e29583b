/**
 Text and bit-mask codecs of the Numato relay bank (hardware/relay_eth.py):
 the hexadecimal `writeall`/`readall` text, the mask-to-channel listing and the
 one-character relay addresses.

 A bank is a set of 0-based relay numbers; its mask has bit `n` set exactly when
 relay `n` is energised.
 */
module BankCodec {
  import opened Results

  // ---------------------------------------------------------------- masks

  function Pow2(n: nat): (r: nat)
    ensures r >= 1
  {
    if n == 0 then 1 else 2 * Pow2(n - 1)
  }

  /** `mask & (1 << i) != 0`. */
  predicate Bit(mask: nat, i: nat) {
    if i == 0 then mask % 2 == 1 else Bit(mask / 2, i - 1)
  }

  /** The bank as seen from relay `lo` upwards, on a device with `width` relays. */
  function MaskFrom(bank: set<nat>, lo: nat, width: nat): nat
    decreases width - lo
  {
    if lo >= width then 0
    else (if lo in bank then 1 else 0) + 2 * MaskFrom(bank, lo + 1, width)
  }

  function MaskOf(bank: set<nat>, width: nat): nat {
    MaskFrom(bank, 0, width)
  }

  lemma {:induction false} MaskFromBit(bank: set<nat>, lo: nat, width: nat, i: nat)
    ensures Bit(MaskFrom(bank, lo, width), i) <==> lo + i < width && lo + i in bank
    decreases i
  {
    if lo >= width {
      ZeroHasNoBits(i);
    } else if i > 0 {
      MaskFromBit(bank, lo + 1, width, i - 1);
    }
  }

  lemma {:induction false} ZeroHasNoBits(i: nat)
    ensures !Bit(0, i)
  {
    if i == 0 {
    } else {
      ZeroHasNoBits(i - 1);
    }
  }

  lemma {:induction false} Pow2Bit(n: nat, i: nat)
    ensures Bit(Pow2(n), i) <==> i == n
  {
    if n == 0 {
      if i > 0 { ZeroHasNoBits(i - 1); }
    } else if i > 0 {
      Pow2Bit(n - 1, i - 1);
    }
  }

  /** The mask determines the bank: equal masks are equal banks. */
  lemma MaskDeterminesBank(a: set<nat>, b: set<nat>, width: nat)
    requires forall n :: n in a ==> n < width
    requires forall n :: n in b ==> n < width
    ensures MaskOf(a, width) == MaskOf(b, width) ==> a == b
  {
    if MaskOf(a, width) == MaskOf(b, width) {
      forall n: nat ensures n in a <==> n in b {
        MaskFromBit(a, 0, width, n);
        MaskFromBit(b, 0, width, n);
      }
    }
  }

  lemma {:induction false} MaskInRange(bank: set<nat>, lo: nat, width: nat)
    requires lo <= width
    ensures MaskFrom(bank, lo, width) < Pow2(width - lo)
    decreases width - lo
  {
    if lo < width { MaskInRange(bank, lo + 1, width); }
  }

  /** Reading `1 << n` back means relay `n` is the only energised one. */
  lemma SingleRelayMask(bank: set<nat>, n: nat, width: nat)
    requires forall i :: i in bank ==> i < width
    ensures MaskOf(bank, width) == Pow2(n) ==> bank == {n}
  {
    if MaskOf(bank, width) == Pow2(n) {
      forall i: nat ensures i in bank <==> i == n {
        MaskFromBit(bank, 0, width, i);
        Pow2Bit(n, i);
      }
    }
  }

  /** Reading 0 back means the bank is empty. */
  lemma EmptyBankMask(bank: set<nat>, width: nat)
    requires forall i :: i in bank ==> i < width
    ensures MaskOf(bank, width) == 0 ==> bank == {}
  {
    if MaskOf(bank, width) == 0 {
      forall i: nat ensures i !in bank {
        MaskFromBit(bank, 0, width, i);
        ZeroHasNoBits(i);
      }
    }
  }

  /** `_mask_to_channels`: the 1-based channels that are on, in order. */
  function MaskToChannels(mask: nat, channels: nat): seq<nat> {
    if channels == 0 then []
    else MaskToChannels(mask, channels - 1) + (if Bit(mask, channels - 1) then [channels] else [])
  }

  lemma {:induction false} ChannelListed(mask: nat, channels: nat, ch: nat)
    ensures ch in MaskToChannels(mask, channels) <==> 1 <= ch <= channels && Bit(mask, ch - 1)
  {
    if channels == 0 {
    } else {
      ChannelListed(mask, channels - 1, ch);
    }
  }

  /** The listing is in ascending order. */
  lemma {:induction false} ChannelsAscend(mask: nat, channels: nat, i: nat, j: nat)
    requires i < j < |MaskToChannels(mask, channels)|
    ensures MaskToChannels(mask, channels)[i] < MaskToChannels(mask, channels)[j]
  {
    var before := MaskToChannels(mask, channels - 1);
    if j < |before| {
      ChannelsAscend(mask, channels - 1, i, j);
    } else {
      ChannelListed(mask, channels - 1, before[i]);
    }
  }

  lemma {:induction false} BitsDetermineMask(a: nat, b: nat, n: nat)
    requires a < Pow2(n) && b < Pow2(n)
    requires forall i: nat :: i < n ==> (Bit(a, i) <==> Bit(b, i))
    ensures a == b
  {
    if n == 0 {
    } else {
      assert Bit(a, 0) <==> Bit(b, 0);
      forall i: nat | i < n - 1 ensures Bit(a / 2, i) <==> Bit(b / 2, i) {
        assert Bit(a, i + 1) <==> Bit(b, i + 1);
      }
      BitsDetermineMask(a / 2, b / 2, n - 1);
    }
  }

  /** The channel listing loses nothing: two in-range masks listing the same channels are equal. */
  lemma ChannelsDetermineMask(a: nat, b: nat, channels: nat)
    requires a < Pow2(channels) && b < Pow2(channels)
    requires MaskToChannels(a, channels) == MaskToChannels(b, channels)
    ensures a == b
  {
    forall i: nat | i < channels ensures Bit(a, i) <==> Bit(b, i) {
      ChannelListed(a, channels, i + 1);
      ChannelListed(b, channels, i + 1);
    }
    BitsDetermineMask(a, b, channels);
  }

  // ------------------------------------------------------------ addresses

  /** `_addr_str`: relays 0-9 are "0".."9", relays 10-31 are "A".."V". */
  function Address(relay: nat): char
    requires relay < 32
  {
    if relay < 10 then ('0' as int + relay) as char else ('A' as int + relay - 10) as char
  }

  function AddressedRelay(c: char): Option<nat> {
    if '0' <= c <= '9' then Some(c as int - '0' as int)
    else if 'A' <= c <= 'V' then Some(c as int - 'A' as int + 10)
    else None
  }

  const ADDRESSES := "0123456789ABCDEFGHIJKLMNOPQRSTUV"

  /** An address names exactly one of the 32 relays, and every address character is used. */
  lemma AddressNamesOneRelay(relay: nat, other: nat, c: char)
    requires relay < 32 && other < 32
    ensures |ADDRESSES| == 32 && Address(relay) == ADDRESSES[relay]
    ensures AddressedRelay(Address(relay)) == Some(relay)
    ensures Address(relay) == Address(other) ==> relay == other
    ensures AddressedRelay(c).Some? ==> AddressedRelay(c).value < 32 && Address(AddressedRelay(c).value) == c
  {
  }

  // ------------------------------------------------------------------ hex

  /** `_hex_digits`: four relays per digit, never fewer than two digits. */
  function HexDigits(channels: nat): nat {
    if (channels + 3) / 4 < 2 then 2 else (channels + 3) / 4
  }

  function Pow16(d: nat): (r: nat)
    ensures r >= 1
  {
    if d == 0 then 1 else 16 * Pow16(d - 1)
  }

  function Digit(v: nat): char
    requires v < 16
  {
    if v < 10 then ('0' as int + v) as char else ('A' as int + v - 10) as char
  }

  predicate IsHex(c: char) {
    '0' <= c <= '9' || 'A' <= c <= 'F' || 'a' <= c <= 'f'
  }

  function DigitValue(c: char): (v: nat)
    requires IsHex(c)
    ensures v < 16
  {
    if c <= '9' then c as int - '0' as int
    else if c <= 'F' then c as int - 'A' as int + 10
    else c as int - 'a' as int + 10
  }

  predicate AllHex(s: string) {
    forall i :: 0 <= i < |s| ==> IsHex(s[i])
  }

  /** `format(mask, "0<width>X")`. */
  function FormatHex(mask: nat, width: nat): (s: string)
    ensures |s| >= 1 && AllHex(s)
    decreases width + mask
  {
    if mask < 16 && width <= 1 then [Digit(mask)]
    else FormatHex(mask / 16, if width == 0 then 0 else width - 1) + [Digit(mask % 16)]
  }

  /** `int(text, 16)`. */
  function HexValue(s: string): nat
    requires AllHex(s)
  {
    if s == "" then 0 else 16 * HexValue(s[..|s| - 1]) + DigitValue(s[|s| - 1])
  }

  const HEX_DIGITS := "0123456789ABCDEF"

  lemma {:induction false} FormatHexValue(mask: nat, width: nat)
    ensures HexValue(FormatHex(mask, width)) == mask
    decreases width + mask
  {
    var s := FormatHex(mask, width);
    if mask < 16 && width <= 1 {
      assert s[..|s| - 1] == "";
    } else {
      var w := if width == 0 then 0 else width - 1;
      FormatHexValue(mask / 16, w);
      assert s[..|s| - 1] == FormatHex(mask / 16, w);
    }
  }

  lemma DigitInOrder(v: nat)
    requires v < 16
    ensures |HEX_DIGITS| == 16 && Digit(v) == HEX_DIGITS[v]
  {
  }

  /** It is written with the upper-case digits. */
  lemma {:induction false} FormatHexDigits(mask: nat, width: nat)
    ensures forall i :: 0 <= i < |FormatHex(mask, width)| ==> FormatHex(mask, width)[i] in HEX_DIGITS
    decreases width + mask
  {
    DigitInOrder(mask % 16);
    if mask >= 16 || width > 1 {
      FormatHexDigits(mask / 16, if width == 0 then 0 else width - 1);
    }
  }

  lemma {:induction false} FormatHexLength(mask: nat, width: nat)
    requires width >= 1 && mask < Pow16(width)
    ensures |FormatHex(mask, width)| == width
  {
    if width > 1 {
      FormatHexLength(mask / 16, width - 1);
    }
  }

  lemma {:induction false} Pow2BelowPow16(n: nat)
    ensures Pow2(n) <= Pow16((n + 3) / 4)
  {
    if n < 4 {
      assert n == 0 || n == 1 || n == 2 || n == 3;
      assert Pow2(1) == 2 && Pow2(2) == 4 && Pow2(3) == 8 && Pow16(1) == 16;
    } else {
      Pow2BelowPow16(n - 4);
      assert Pow2(n) == 2 * Pow2(n - 1) == 4 * Pow2(n - 2) == 8 * Pow2(n - 3) == 16 * Pow2(n - 4);
      assert (n + 3) / 4 == (n - 4 + 3) / 4 + 1;
    }
  }

  // -------------------------------------------------- parsing the readback

  predicate IsSpace(c: char) {
    c == ' ' || c == '\t' || c == '\n' || c == '\r' || c == 11 as char || c == 12 as char
  }

  /** Everything before the first `>` or `&`. */
  function BeforePrompt(s: string): string {
    if s == "" || s[0] == '>' || s[0] == '&' then "" else [s[0]] + BeforePrompt(s[1..])
  }

  function TrimLeft(s: string): string {
    if s != "" && IsSpace(s[0]) then TrimLeft(s[1..]) else s
  }

  function TrimRight(s: string): string {
    if s != "" && IsSpace(s[|s| - 1]) then TrimRight(s[..|s| - 1]) else s
  }

  /** The regular expression `[0-9A-Fa-f]{2,8}$` matches `s` from position `p`. */
  predicate MatchesAt(s: string, p: nat) {
    p <= |s| && 2 <= |s| - p <= 8 && AllHex(s[p..])
  }

  /** `re.search`: the first position at or after `p` that matches. */
  function Search(s: string, p: nat): (r: Option<nat>)
    ensures r.Some? ==> p <= r.value && MatchesAt(s, r.value) && forall q: nat :: p <= q < r.value ==> !MatchesAt(s, q)
    ensures r.None? ==> forall q: nat :: p <= q ==> !MatchesAt(s, q)
    decreases |s| - p
  {
    if p > |s| then None
    else if MatchesAt(s, p) then Some(p)
    else Search(s, p + 1)
  }

  /** `_parse_readall_response`; `None` is the "unparseable response" error. */
  function ParseReadall(response: string): Option<nat> {
    var text := TrimRight(TrimLeft(BeforePrompt(response)));
    match Search(text, 0)
    case None => None
    case Some(p) => Some(HexValue(text[p..]))
  }

  lemma {:induction false} BeforePromptStops(body: string, rest: string)
    requires forall i :: 0 <= i < |body| ==> body[i] != '>' && body[i] != '&'
    requires rest != "" && (rest[0] == '>' || rest[0] == '&')
    ensures BeforePrompt(body + rest) == body
  {
    if body == "" {
      assert body + rest == rest;
    } else {
      BeforePromptStops(body[1..], rest);
      assert (body + rest)[1..] == body[1..] + rest;
    }
  }

  lemma {:induction false} TrimRightDrops(s: string, blanks: string)
    requires s != "" && !IsSpace(s[|s| - 1])
    requires forall i :: 0 <= i < |blanks| ==> IsSpace(blanks[i])
    ensures TrimRight(s + blanks) == s
  {
    if blanks == "" {
      assert s + blanks == s;
    } else {
      TrimRightDrops(s, blanks[..|blanks| - 1]);
      assert (s + blanks)[..|s + blanks| - 1] == s + blanks[..|blanks| - 1];
    }
  }

  /** Trimming the left end keeps a suffix that starts with a non-blank. */
  lemma {:induction false} TrimLeftKeeps(head: string, tail: string) returns (kept: string)
    requires tail != "" && !IsSpace(tail[0])
    ensures TrimLeft(head + tail) == kept + tail
    ensures |kept| <= |head| && kept == head[|head| - |kept|..]
  {
    if head == "" {
      assert head + tail == tail;
      kept := "";
      assert kept + tail == tail;
    } else if IsSpace(head[0]) {
      assert (head + tail)[1..] == head[1..] + tail;
      kept := TrimLeftKeeps(head[1..], tail);
    } else {
      kept := head;
    }
  }

  /** Searching a text whose last hexadecimal run is `digits` finds exactly that run. */
  lemma SearchFindsLastRun(head: string, digits: string)
    requires 2 <= |digits| <= 8 && AllHex(digits)
    requires head == "" || !IsHex(head[|head| - 1])
    ensures Search(head + digits, 0) == Some(|head|)
  {
    var s := head + digits;
    assert s[|head|..] == digits;
    assert MatchesAt(s, |head|);
    forall q: nat | q < |head| ensures !MatchesAt(s, q) {
      assert s[q..][|head| - 1 - q] == head[|head| - 1];
    }
  }

  /** The digits sent for an in-range mask: one for every four channels, at least two, as the parser accepts, and worth the mask. */
  lemma SentDigits(mask: nat, channels: nat)
    requires channels <= 32 && mask < Pow2(channels)
    ensures 2 <= |FormatHex(mask, HexDigits(channels))| <= 8
    ensures 4 * |FormatHex(mask, HexDigits(channels))| >= channels
    ensures |FormatHex(mask, HexDigits(channels))| > 2 ==> 4 * (|FormatHex(mask, HexDigits(channels))| - 1) < channels
    ensures HexValue(FormatHex(mask, HexDigits(channels))) == mask
  {
    Pow2BelowPow16(channels);
    Pow16Monotone((channels + 3) / 4, HexDigits(channels));
    FormatHexLength(mask, HexDigits(channels));
    FormatHexValue(mask, HexDigits(channels));
  }

  lemma {:induction false} Pow16Monotone(a: nat, b: nat)
    requires a <= b
    ensures Pow16(a) <= Pow16(b)
    decreases b
  {
    if a < b { Pow16Monotone(a, b - 1); }
  }

  lemma HexIsNeitherBlankNorPrompt(c: char)
    requires IsHex(c)
    ensures !IsSpace(c) && c != '>' && c != '&'
  {
  }

  lemma Associative(a: string, b: string, c: string)
    ensures a + b + c == a + (b + c)
  {
  }

  /** Trimming keeps the digits and a part of the echo that still does not end in a digit. */
  lemma {:induction false} TrimmedReply(echo: string, digits: string, blanks: string) returns (kept: string)
    requires digits != "" && !IsSpace(digits[0]) && !IsSpace(digits[|digits| - 1])
    requires echo == "" || !IsHex(echo[|echo| - 1])
    requires forall i :: 0 <= i < |blanks| ==> IsSpace(blanks[i])
    ensures TrimRight(TrimLeft(echo + digits + blanks)) == kept + digits
    ensures kept == "" || !IsHex(kept[|kept| - 1])
  {
    Associative(echo, digits, blanks);
    kept := KeptEcho(echo, digits + blanks);
    Associative(kept, digits, blanks);
    TrimRightDrops(kept + digits, blanks);
  }

  /** Trimming on the left keeps an end of the echo. */
  lemma {:induction false} KeptEcho(echo: string, rest: string) returns (kept: string)
    requires rest != "" && !IsSpace(rest[0]) && (echo == "" || !IsHex(echo[|echo| - 1]))
    ensures TrimLeft(echo + rest) == kept + rest
    ensures kept == "" || !IsHex(kept[|kept| - 1])
  {
    kept := TrimLeftKeeps(echo, rest);
    assert kept != "" ==> kept[|kept| - 1] == echo[|echo| - 1];
  }

  lemma NoPromptInReply(echo: string, digits: string, blanks: string)
    requires AllHex(digits)
    requires forall i :: 0 <= i < |echo| ==> echo[i] != '>' && echo[i] != '&'
    requires forall i :: 0 <= i < |blanks| ==> IsSpace(blanks[i])
    ensures forall i :: 0 <= i < |echo + digits + blanks| ==> (echo + digits + blanks)[i] != '>' && (echo + digits + blanks)[i] != '&'
  {
    forall i | 0 <= i < |digits| ensures digits[i] != '>' && digits[i] != '&' {
      HexIsNeitherBlankNorPrompt(digits[i]);
    }
  }

  /** The parser sees through an echo before the digits and blanks after them. */
  lemma {:induction false} ParseFindsDigits(echo: string, digits: string, blanks: string, rest: string)
    requires 2 <= |digits| <= 8 && AllHex(digits)
    requires echo == "" || !IsHex(echo[|echo| - 1])
    requires forall i :: 0 <= i < |echo| ==> echo[i] != '>' && echo[i] != '&'
    requires forall i :: 0 <= i < |blanks| ==> IsSpace(blanks[i])
    requires rest != "" && rest[0] == '>'
    ensures ParseReadall(echo + digits + blanks + rest) == Some(HexValue(digits))
  {
    NoPromptInReply(echo, digits, blanks);
    BeforePromptStops(echo + digits + blanks, rest);
    HexIsNeitherBlankNorPrompt(digits[0]);
    HexIsNeitherBlankNorPrompt(digits[|digits| - 1]);
    var kept := TrimmedReply(echo, digits, blanks);
    SearchFindsLastRun(kept, digits);
    assert (kept + digits)[|kept|..] == digits;
  }

  /**
   Round trip: whatever echo precedes it (not ending in a hexadecimal digit and free
   of prompts) and whatever blanks follow it, the text `writeall` sends for a mask is
   read back as that mask, for every bank of at most 32 relays.
   */
  lemma ReadallRoundTrip(mask: nat, channels: nat, echo: string, blanks: string, rest: string)
    requires channels <= 32 && mask < Pow2(channels)
    requires echo == "" || !IsHex(echo[|echo| - 1])
    requires forall i :: 0 <= i < |echo| ==> echo[i] != '>' && echo[i] != '&'
    requires forall i :: 0 <= i < |blanks| ==> IsSpace(blanks[i])
    requires rest != "" && rest[0] == '>'
    ensures ParseReadall(echo + FormatHex(mask, HexDigits(channels)) + blanks + rest) == Some(mask)
  {
    SentDigits(mask, channels);
    ParseFindsDigits(echo, FormatHex(mask, HexDigits(channels)), blanks, rest);
  }

  // ------------------------------------------- parsing one relay's readback

  function LowerChar(c: char): char {
    if 'A' <= c <= 'Z' then (c as int - 'A' as int + 'a' as int) as char else c
  }

  function Lower(s: string): (t: string)
    ensures |t| == |s| && forall i :: 0 <= i < |s| ==> t[i] == LowerChar(s[i])
  {
    seq(|s|, i requires 0 <= i < |s| => LowerChar(s[i]))
  }

  predicate WordAt(text: string, word: string, i: nat) {
    i + |word| <= |text| && text[i..i + |word|] == word
  }

  /** `word in text`. */
  predicate Contains(text: string, word: string) {
    exists i :: 0 <= i <= |text| && WordAt(text, word, i)
  }

  /** `_parse_read_response`: the word "on" wins; `None` is the "invalid response" error. */
  function ParseRead(response: string): Option<bool> {
    var text := Lower(BeforePrompt(response));
    if Contains(text, "on") then Some(true)
    else if Contains(text, "off") then Some(false)
    else None
  }

  function Word(on: bool): string {
    if on then "on" else "off"
  }

  lemma ContainsPart(a: string, word: string, b: string)
    ensures Contains(a + word + b, word)
  {
    assert WordAt(a + word + b, word, |a|);
  }

  lemma OnAt(text: string, i: nat)
    ensures WordAt(text, "on", i) <==> i + 1 < |text| && text[i] == 'o' && text[i + 1] == 'n'
  {
    if i + 1 < |text| {
      assert text[i..i + 2] == [text[i], text[i + 1]];
      assert "on"[0] == 'o' && "on"[1] == 'n';
    }
  }

  /** In an "off" reply the word "on" can only stand in the echo. */
  lemma OnOnlyInEcho(echo: string, blanks: string)
    requires forall i :: 0 <= i < |blanks| ==> IsSpace(blanks[i])
    ensures Contains(Lower(echo + "off" + blanks), "on") <==> Contains(Lower(echo), "on")
  {
    var text := Lower(echo + "off" + blanks);
    forall i: nat ensures WordAt(text, "on", i) <==> WordAt(Lower(echo), "on", i) {
      OnAt(text, i);
      OnAt(Lower(echo), i);
    }
  }

  /**
   The readback of one relay, exactly: whatever prompt-free echo precedes the word and whatever
   blanks follow it, the state is read right if and only if the relay is on or the echo does not
   itself hold the word "on".
   */
  lemma ReadReplyExact(echo: string, on: bool, blanks: string, rest: string)
    requires forall i :: 0 <= i < |echo| ==> echo[i] != '>' && echo[i] != '&'
    requires forall i :: 0 <= i < |blanks| ==> IsSpace(blanks[i])
    requires rest != "" && rest[0] == '>'
    ensures ParseRead(echo + Word(on) + blanks + rest) == Some(on) <==> on || !Contains(Lower(echo), "on")
  {
    var body := echo + Word(on) + blanks;
    BeforePromptStops(body, rest);
    assert Lower(body) == Lower(echo) + Word(on) + Lower(blanks);
    ContainsPart(Lower(echo), Word(on), Lower(blanks));
    if !on { OnOnlyInEcho(echo, blanks); }
  }

  /** The echo of `relay read <n>` never holds the word "on", so every relay's readback is read right. */
  lemma ReadRoundTrip(relay: nat, on: bool, blanks: string, rest: string)
    requires relay < 32
    requires forall i :: 0 <= i < |blanks| ==> IsSpace(blanks[i])
    requires rest != "" && rest[0] == '>'
    ensures ParseRead("relay read " + [Address(relay)] + "\r\n" + Word(on) + blanks + rest) == Some(on)
  {
    var echo := "relay read " + [Address(relay)] + "\r\n";
    forall i: nat ensures !WordAt(Lower(echo), "on", i) {
      OnAt(Lower(echo), i);
      assert i == 10 ==> echo[i] == ' ';
    }
    ReadReplyExact(echo, on, blanks, rest);
  }
}

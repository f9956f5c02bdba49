/** The on-wire form of an instrument: `<kind>|<commitment>:<amount>[:claim<claimed>]`, and what
    a reader recovers from it. */
module Blobs {
  import opened Basics
  import opened Words
  import opened Ledger

  const KINDS: set<string> := {"cashuA", "cashuB", "fed1", "pow1"}

  datatype Parsed = Parsed(kind: string, commitment: string, face: uint64)

  // ------------------------------------------------------------ decimal numbers

  function Digit(d: nat): char
    requires d < 10
  {
    '0' + d as char
  }

  predicate IsDigit(ch: char) { '0' <= ch <= '9' }

  predicate AllDigits(s: string) {
    forall i :: 0 <= i < |s| ==> IsDigit(s[i])
  }

  function FormatUint(n: nat): (s: string)
    ensures s != "" && AllDigits(s)
  {
    if n < 10 then [Digit(n)] else FormatUint(n / 10) + [Digit(n % 10)]
  }

  function DecimalValue(s: string): nat
    requires AllDigits(s)
  {
    if s == "" then 0
    else DecimalValue(s[..|s| - 1]) * 10 + (s[|s| - 1] as int - '0' as int)
  }

  /** Digits only, at least one of them, and no more than 64 bits. */
  function ParseUint(s: string): Option<uint64> {
    if s == "" || !AllDigits(s) || DecimalValue(s) > MAX_UINT64 then None
    else Some(DecimalValue(s))
  }

  lemma {:induction false} DecimalRoundTrip(n: nat)
    ensures DecimalValue(FormatUint(n)) == n
  {
    if n < 10 {
    } else {
      var s := FormatUint(n);
      assert s[..|s| - 1] == FormatUint(n / 10);
      DecimalRoundTrip(n / 10);
    }
  }

  // ------------------------------------------------------------ splitting

  predicate Without(s: string, ch: char) { ch !in s }

  /** Where `ch` first occurs, or the length. */
  function FirstOf(s: string, ch: char): (i: nat)
    ensures i <= |s|
    ensures forall j :: 0 <= j < i ==> s[j] != ch
    ensures i < |s| ==> s[i] == ch
  {
    if s == "" || s[0] == ch then 0 else 1 + FirstOf(s[1..], ch)
  }

  /** The pieces of s between separators; never fewer than one. */
  function Split(s: string, sep: char): (parts: seq<string>)
    ensures |parts| >= 1
    ensures parts[0] == s[..FirstOf(s, sep)]
    ensures |parts| == 1 <==> FirstOf(s, sep) == |s|
    decreases |s|
  {
    var i := FirstOf(s, sep);
    if i == |s| then [s[..i]] else [s[..i]] + Split(s[i + 1..], sep)
  }

  lemma FirstOfPrefix(a: string, b: string, ch: char)
    requires Without(a, ch)
    ensures FirstOf(a + [ch] + b, ch) == |a|
    ensures FirstOf(a, ch) == |a|
  {
    var s := a + [ch] + b;
    assert s[|a|] == ch;
    assert forall j :: 0 <= j < |a| ==> s[j] == a[j];
  }

  // ------------------------------------------------------------ the blob

  function Claim(claimed: uint64): string {
    if claimed == 0 then "" else ":claim" + FormatUint(claimed)
  }

  function EncodeBlob(kind: string, commitment: string, amount: uint64, claimed: uint64): string {
    kind + "|" + commitment + ":" + FormatUint(amount) + Claim(claimed)
  }

  function SniffAndSplit(blob: string): Outcome<Parsed> {
    var bar := FirstOf(blob, '|');
    if bar == |blob| || bar == 0 || blob[..bar] !in KINDS then Err(UnknownKind)
    else
      var parts := Split(blob[bar + 1..], ':');
      if |parts| < 2 then Err(UnknownKind)
      else match ParseUint(parts[1])
        case None => Err(UnknownKind)
        case Some(n) => Ok(Parsed(blob[..bar], parts[0], n))
  }

  lemma FormatHasNoColon(n: nat)
    ensures Without(FormatUint(n), ':')
  {
    var s := FormatUint(n);
    assert forall i :: 0 <= i < |s| ==> IsDigit(s[i]);
  }

  /** A field followed by nothing or by a separator is the first piece of a split. */
  lemma FieldSplits(field: string, rest: string, ch: char)
    requires Without(field, ch) && (rest == "" || rest[0] == ch)
    ensures (field + rest)[..FirstOf(field + rest, ch)] == field
  {
    if rest == "" {
      FirstOfPrefix(field, "", ch);
      assert field + rest == field;
    } else {
      FirstOfPrefix(field, rest[1..], ch);
      assert field + rest == field + [ch] + rest[1..];
    }
  }

  lemma ClaimStarts(claimed: uint64)
    ensures Claim(claimed) == "" || Claim(claimed)[0] == ':'
  {
  }

  lemma KnownKindHasNoBar(kind: string)
    requires kind in KINDS
    ensures kind != "" && Without(kind, '|')
  {
  }

  /** The body behind the kind: whether a reader takes the right commitment and amount from it. */
  lemma BodyRead(commitment: string, amount: uint64, tail: string)
    requires tail == "" || tail[0] == ':'
    ensures var parts := Split(commitment + [':'] + (FormatUint(amount) + tail), ':');
            |parts| >= 2 && (Without(commitment, ':') <==> parts[0] == commitment)
            && (Without(commitment, ':') ==> parts[1] == FormatUint(amount))
  {
    var rest := FormatUint(amount) + tail;
    var body := commitment + [':'] + rest;
    assert body[|commitment|] == ':';
    if Without(commitment, ':') {
      FirstOfPrefix(commitment, rest, ':');
      assert body[|commitment| + 1..] == rest;
      FormatHasNoColon(amount);
      FieldSplits(FormatUint(amount), tail, ':');
    }
  }

  lemma BlobShape(kind: string, commitment: string, amount: uint64, claimed: uint64)
    ensures EncodeBlob(kind, commitment, amount, claimed)
         == kind + ['|'] + (commitment + [':'] + (FormatUint(amount) + Claim(claimed)))
  {
  }

  lemma KindRead(kind: string, body: string)
    requires kind in KINDS
    ensures var blob := kind + ['|'] + body;
            && FirstOf(blob, '|') == |kind| && 0 < |kind| < |blob|
            && blob[..|kind|] == kind && blob[|kind| + 1..] == body
  {
    KnownKindHasNoBar(kind);
    FirstOfPrefix(kind, body, '|');
  }

  lemma NumberRead(n: uint64)
    ensures ParseUint(FormatUint(n)) == Some(n)
  {
    DecimalRoundTrip(n);
  }

  /** Reading back what was written gives the kind, the commitment and the amount exactly when
      the kind is a known one and the commitment is free of the separator. */
  lemma BlobRoundTrip(kind: string, commitment: string, amount: uint64, claimed: uint64)
    ensures SniffAndSplit(EncodeBlob(kind, commitment, amount, claimed)) == Ok(Parsed(kind, commitment, amount))
       <==> kind in KINDS && Without(commitment, ':')
  {
    BlobShape(kind, commitment, amount, claimed);
    ClaimStarts(claimed);
    if kind in KINDS {
      KindRead(kind, commitment + [':'] + (FormatUint(amount) + Claim(claimed)));
      BodyRead(commitment, amount, Claim(claimed));
      NumberRead(amount);
    }
  }

  /** Blobs of known kinds with separator-free commitments are injective in all four fields. */
  lemma BlobInjective(k1: string, c1: string, a1: uint64, d1: uint64,
                      k2: string, c2: string, a2: uint64, d2: uint64)
    requires k1 in KINDS && k2 in KINDS && Without(c1, ':') && Without(c2, ':')
    requires EncodeBlob(k1, c1, a1, d1) == EncodeBlob(k2, c2, a2, d2)
    ensures k1 == k2 && c1 == c2 && a1 == a2 && d1 == d2
  {
    BlobRoundTrip(k1, c1, a1, d1);
    BlobRoundTrip(k2, c2, a2, d2);
    var head := k1 + "|" + c1 + ":" + FormatUint(a1);
    assert EncodeBlob(k1, c1, a1, d1)[|head|..] == Claim(d1);
    assert EncodeBlob(k2, c2, a2, d2)[|head|..] == Claim(d2);
    ClaimInjective(d1, d2);
  }

  lemma ClaimInjective(d1: uint64, d2: uint64)
    requires Claim(d1) == Claim(d2)
    ensures d1 == d2
  {
    if d1 != 0 && d2 != 0 {
      assert Claim(d1)[6..] == FormatUint(d1) && Claim(d2)[6..] == FormatUint(d2);
      DecimalRoundTrip(d1);
      DecimalRoundTrip(d2);
    }
  }

  /** Whatever a reader accepts, however it was spelled, is a known kind with a separator-free
      commitment, and survives being written and read again. */
  lemma AcceptedIsCanonical(blob: string, claimed: uint64)
    requires SniffAndSplit(blob).Ok?
    ensures var p := SniffAndSplit(blob).value;
            && p.kind in KINDS && Without(p.commitment, ':')
            && SniffAndSplit(EncodeBlob(p.kind, p.commitment, p.face, claimed)) == Ok(p)
  {
    var p := SniffAndSplit(blob).value;
    var body := blob[FirstOf(blob, '|') + 1..];
    assert p.commitment == body[..FirstOf(body, ':')];
    BlobRoundTrip(p.kind, p.commitment, p.face, claimed);
  }

  /** A known kind, a bar, a commitment without the separator, the separator, a decimal number of 64
      bits, however many zeros it starts with, and nothing more or anything behind a separator. */
  predicate Spells(blob: string, kind: string, commitment: string, number: string, tail: string) {
    && kind in KINDS && Without(commitment, ':')
    && number != "" && AllDigits(number) && DecimalValue(number) <= MAX_UINT64
    && (tail == "" || tail[0] == ':')
    && blob == kind + ['|'] + (commitment + [':'] + (number + tail))
  }

  lemma DigitsHaveNoColon(number: string)
    requires AllDigits(number)
    ensures Without(number, ':')
  {
    assert forall i :: 0 <= i < |number| ==> IsDigit(number[i]);
  }

  lemma SplitAt(s: string, sep: char, first: string, rest: string)
    requires FirstOf(s, sep) == |first| < |s| && s[..|first|] == first && s[|first| + 1..] == rest
    ensures Split(s, sep) == [first] + Split(rest, sep)
  {
  }

  /** A body with a commitment, a separator and a number is split there. */
  lemma BodySplit(commitment: string, number: string, tail: string)
    requires Without(commitment, ':') && AllDigits(number) && (tail == "" || tail[0] == ':')
    ensures var parts := Split(commitment + [':'] + (number + tail), ':');
            |parts| >= 2 && parts[0] == commitment && parts[1] == number
  {
    var rest := number + tail;
    var body := commitment + [':'] + rest;
    FirstOfPrefix(commitment, rest, ':');
    assert body[|commitment| + 1..] == rest && body[..|commitment|] == commitment;
    SplitAt(body, ':', commitment, rest);
    DigitsHaveNoColon(number);
    FieldSplits(number, tail, ':');
  }

  /** Every blob so spelled is accepted, for what it says ... */
  lemma SpelledIsAccepted(blob: string, kind: string, commitment: string, number: string, tail: string)
    requires Spells(blob, kind, commitment, number, tail)
    ensures SniffAndSplit(blob) == Ok(Parsed(kind, commitment, DecimalValue(number)))
  {
    KindRead(kind, commitment + [':'] + (number + tail));
    BodySplit(commitment, number, tail);
  }

  /** ... and no other blob is: it is refused as of no known kind. */
  lemma AcceptedIsSpelled(blob: string) returns (number: string, tail: string)
    ensures SniffAndSplit(blob).Err? ==> SniffAndSplit(blob) == Err(UnknownKind)
    ensures SniffAndSplit(blob).Ok? ==>
              var p := SniffAndSplit(blob).value;
              Spells(blob, p.kind, p.commitment, number, tail) && p.face == DecimalValue(number)
  {
    number, tail := "", "";
    if SniffAndSplit(blob).Ok? {
      var bar := FirstOf(blob, '|');
      assert blob == blob[..bar] + ['|'] + blob[bar + 1..];
      number, tail := BodySpelled(blob[bar + 1..]);
    }
  }

  /** A string is what comes before its first separator, and from there on. */
  lemma CutAtFirst(s: string, sep: char)
    ensures var i := FirstOf(s, sep);
            && Without(s[..i], sep) && s == s[..i] + s[i..] && (s[i..] == "" || s[i..][0] == sep)
            && (i < |s| ==> s[i..] == [sep] + s[i + 1..])
  {
  }

  lemma BodySpelled(body: string) returns (number: string, tail: string)
    requires |Split(body, ':')| >= 2
    ensures Split(body, ':')[1] == number && (tail == "" || tail[0] == ':')
    ensures Without(Split(body, ':')[0], ':') && body == Split(body, ':')[0] + [':'] + (number + tail)
  {
    var i := FirstOf(body, ':');
    var rest := body[i + 1..];
    var j := FirstOf(rest, ':');
    number, tail := rest[..j], rest[j..];
    SplitAt(body, ':', body[..i], rest);
    CutAtFirst(body, ':');
    CutAtFirst(rest, ':');
    Regroup(body[..i], [':'], number, tail);
  }

  lemma Regroup(a: string, b: string, c: string, d: string)
    ensures a + (b + (c + d)) == a + b + (c + d)
  {
  }
}

/** The raffle terms carried by the `msg` argument of `nft_on_transfer`.

    The message is not split at a separator: bytes 0..5 are the seat count and bytes 6.. the
    ticket price. Byte 5 must be a one-byte (ASCII) character, but its value is never parsed.
    Both slices are Rust `str` slices, which panic past the end of the message or inside a
    multi-byte character. */
module Terms {
  import opened Types
  import opened Decimal
  import opened Utf8

  /** Width of the seat-count field. */
  const COUNT_WIDTH: nat := 5
  /** First byte of the price field. */
  const PRICE_START: nat := 6

  datatype Terms = Terms(participantsNumber: U32, ticketPrice: Balance)

  /** The slicing and parsing at the top of `nft_on_transfer`, in the order the code runs it. */
  function ParseTerms(msg: seq<Byte>): (r: Result<Terms>)
    ensures r.Ok? ==> PRICE_START <= |msg|
    ensures r.Ok? ==> ParseUnsigned(msg[..COUNT_WIDTH], U32_LIMIT) == Some(r.value.participantsNumber as nat)
    ensures r.Ok? ==> ParseUnsigned(msg[PRICE_START..], U128_LIMIT) == Some(r.value.ticketPrice as nat)
    ensures r.Ok? ==> r.value.participantsNumber < Pow10(COUNT_WIDTH)
    ensures |msg| < PRICE_START ==> r.Abort?
  {
    if |msg| < COUNT_WIDTH then Abort(SliceOutOfBounds)
    else if !IsCharBoundary(msg, COUNT_WIDTH) then Abort(NotCharBoundary)
    else if |msg| < PRICE_START then Abort(SliceOutOfBounds)
    else if !IsCharBoundary(msg, PRICE_START) then Abort(NotCharBoundary)
    else
      var count := ParseUnsigned(msg[..COUNT_WIDTH], U32_LIMIT);
      var price := ParseUnsigned(msg[PRICE_START..], U128_LIMIT);
      if count.None? || price.None? then Abort(ParseIntFailed)
      else
        CountBound(msg[..COUNT_WIDTH]);
        Ok(Terms(count.value, price.value))
  }

  /** A five-byte field that parses holds at most five digits, so the seat count stays
      below 10^5 even though the field is read as a `u32`. */
  lemma CountBound(field: seq<Byte>)
    requires |field| == COUNT_WIDTH
    requires ParseUnsigned(field, U32_LIMIT).Some?
    ensures ParseUnsigned(field, U32_LIMIT).value < Pow10(COUNT_WIDTH)
  {
    var digits := if field[0] == PLUS then field[1..] else field;
    ValueBound(digits);
    assert Pow10(|digits|) <= Pow10(COUNT_WIDTH) by {
      assert |digits| == 4 || |digits| == 5;
    }
  }

  /** For every message Rust can hold, intake accepts exactly the messages of at least six
      bytes whose first five bytes parse as a `u32` and whose bytes from the seventh on parse as
      a `u128`: the char-boundary checks of the slices never reject such a message. */
  lemma AcceptedExactly(msg: seq<Byte>)
    requires Wellformed(msg)
    ensures ParseTerms(msg).Ok? <==>
      && PRICE_START <= |msg|
      && ParseUnsigned(msg[..COUNT_WIDTH], U32_LIMIT).Some?
      && ParseUnsigned(msg[PRICE_START..], U128_LIMIT).Some?
  {
    if && PRICE_START <= |msg|
       && ParseUnsigned(msg[..COUNT_WIDTH], U32_LIMIT).Some?
       && ParseUnsigned(msg[PRICE_START..], U128_LIMIT).Some?
    {
      var count := msg[..COUNT_WIDTH];
      assert forall k :: 0 <= k < COUNT_WIDTH ==> msg[k] == count[k];
      AsciiPrefixEndsOnBoundary(msg, COUNT_WIDTH);
      assert msg[PRICE_START] == msg[PRICE_START..][0];
    }
  }

  /** Byte 5 is never parsed: replacing it by any other byte that does not continue a UTF-8
      character (a comma, a space, a digit, ...) leaves the outcome unchanged. */
  lemma SeparatorIgnored(msg: seq<Byte>, b: Byte)
    requires PRICE_START <= |msg|
    requires !IsContinuation(msg[COUNT_WIDTH]) && !IsContinuation(b)
    ensures ParseTerms(msg[COUNT_WIDTH := b]) == ParseTerms(msg)
  {
  }

  /** In every message Rust can hold, an accepted message has an ASCII byte 5: a multi-byte
      character there would put index 6 inside it, and `&msg[6..]` would panic. */
  lemma SeparatorIsAscii(msg: seq<Byte>)
    requires Wellformed(msg)
    requires ParseTerms(msg).Ok?
    ensures msg[COUNT_WIDTH] < 0x80
  {
    var count := msg[..COUNT_WIDTH];
    assert forall k :: 0 <= k < COUNT_WIDTH ==> msg[k] == count[k];
    assert msg[PRICE_START] == msg[PRICE_START..][0];
    AsciiPrefixThenLead(msg, COUNT_WIDTH);
  }

  /** The message a creator should send: the seat count as exactly five digits, one separator
      byte, then the price in decimal. */
  function Encode(t: Terms, separator: Byte): (msg: seq<Byte>)
    requires t.participantsNumber < Pow10(COUNT_WIDTH)
  {
    Padded(t.participantsNumber, COUNT_WIDTH) + [separator] + Render(t.ticketPrice)
  }

  /** Intake decodes what `Encode` produces, whatever the separator (short of a UTF-8
      continuation byte). */
  lemma DecodeEncode(t: Terms, separator: Byte)
    requires t.participantsNumber < Pow10(COUNT_WIDTH)
    requires !IsContinuation(separator)
    ensures ParseTerms(Encode(t, separator)) == Ok(t)
  {
    var count := Padded(t.participantsNumber, COUNT_WIDTH);
    var price := Render(t.ticketPrice);
    var msg := Encode(t, separator);
    assert msg[..COUNT_WIDTH] == count;
    assert msg[PRICE_START..] == price;
    assert count[0] != PLUS;
    assert price[0] != PLUS;
    assert msg[PRICE_START] == price[0];
  }

  /** The comma-separated form "2,100" is refused: the first five bytes "2,100" are not a
      number. The same terms written as "00002,100" are accepted. */
  lemma CommaSeparatedRejected()
    ensures ParseTerms([50, 44, 49, 48, 48]) == Abort(SliceOutOfBounds)
    ensures ParseTerms([50, 44, 49, 48, 48, 48]) == Abort(ParseIntFailed)
    ensures ParseTerms([48, 48, 48, 48, 50, 44, 49, 48, 48]) == Ok(Terms(2, 100))
  {
    var padded: seq<Byte> := [48, 48, 48, 48, 50, 44, 49, 48, 48];
    assert padded[..COUNT_WIDTH] == [48, 48, 48, 48, 50];
    assert padded[PRICE_START..] == [49, 48, 48];
    assert Value([48, 48, 48, 48, 50]) == 2 by {
      assert [48, 48, 48, 48, 50][..4] == [48, 48, 48, 48];
      assert [48, 48, 48, 48][..3] == [48, 48, 48];
      assert [48, 48, 48][..2] == [48, 48];
      assert [48, 48][..1] == [48];
      assert [48][..0] == [];
    }
    assert Value([49, 48, 48]) == 100 by {
      assert [49, 48, 48][..2] == [49, 48];
      assert [49, 48][..1] == [49];
      assert [49][..0] == [];
    }
    var short: seq<Byte> := [50, 44, 49, 48, 48, 48];
    assert !IsDigit(short[..COUNT_WIDTH][1]);
  }
}

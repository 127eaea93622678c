/** The Content-Range header of a partial reply (section 14.4 of RFC 9110), as
    far as a download resumes on it. */
module ContentRange {
  import opened Domain
  import opened Numerals

  const U64 := 0x1_0000_0000_0000_0000

  /** Reads an unsigned 64-bit number; a leading plus sign is accepted. */
  function ParseU64(text: string): Option<nat> {
    var digits := if |text| > 1 && text[0] == '+' then text[1..] else text;
    if digits != "" && (forall c :: c in digits ==> IsDigit(c)) then
      ValueIsNat(digits);
      if Value(digits) < U64 then Some(Value(digits)) else None
    else None
  }

  lemma {:induction false} ValueIsNat(digits: string)
    requires forall c :: c in digits ==> IsDigit(c)
    ensures Value(digits) >= 0
  {
    if digits != "" {
      assert digits[|digits| - 1] in digits;
      ValueIsNat(digits[..|digits| - 1]);
    }
  }

  /** The text before and after the first `mark`. */
  function SplitOnce(text: string, mark: char): (parts: Option<(string, string)>)
    ensures parts.None? <==> mark !in text
    ensures parts.Some? ==> mark !in parts.value.0 && text == parts.value.0 + [mark] + parts.value.1
  {
    if text == "" then None
    else if text[0] == mark then Some(("", text[1..]))
    else
      var rest := SplitOnce(text[1..], mark);
      assert text == [text[0]] + text[1..];
      if rest.None? then None else Some(([text[0]] + rest.value.0, rest.value.1))
  }

  /** The reply carries everything from `start` to the end of a file of `total`. */
  predicate Confirmed(header: Option<string>, start: nat, total: nat) {
    header.Some? && "bytes " <= header.value &&
    var range := SplitOnce(header.value[6..], '/');
    range.Some? &&
    var ends := SplitOnce(range.value.0, '-');
    && ends.Some?
    && ParseU64(ends.value.0) == Some(start)
    && ParseU64(range.value.1) == Some(total)
    && ParseU64(ends.value.1) == (if total == 0 then None else Some(total - 1))
  }

  /** The header of a reply that carries bytes `first` to `last` of `total`. */
  function RangeHeader(first: nat, last: nat, total: nat): string {
    "bytes " + (Decimal(first) + "-" + Decimal(last) + "/" + Decimal(total))
  }

  lemma {:induction false} SplitAt(front: string, mark: char, back: string)
    requires mark !in front
    ensures SplitOnce(front + [mark] + back, mark) == Some((front, back))
  {
    var text := front + [mark] + back;
    if front == "" {
      assert text[1..] == back;
    } else {
      assert front[0] in front;
      assert front == [front[0]] + front[1..];
      assert text[1..] == front[1..] + [mark] + back;
      SplitAt(front[1..], mark, back);
    }
  }

  lemma DecimalParses(n: nat)
    ensures ParseU64(Decimal(n)) == if n < U64 then Some(n) else None
  {
    ValueOfDecimal(n);
    assert Decimal(n)[0] in Decimal(n);
  }

  /** Text that is the digits of a 64-bit number, after a plus sign or none, is read as
      that number, and no other text is read. */
  lemma ParsesDigitsOnly(text: string, n: nat)
    ensures ParseU64(text) == Some(n) <==>
      && n < 0x1_0000_0000_0000_0000
      && exists digits: string ::
           && (text == digits || text == "+" + digits) && digits != ""
           && (forall c :: c in digits ==> IsDigit(c)) && Value(digits) == n
  {
    if exists digits: string ::
         && (text == digits || text == "+" + digits) && digits != ""
         && (forall c :: c in digits ==> IsDigit(c)) && Value(digits) == n
    {
      var digits: string :|
        && (text == digits || text == "+" + digits) && digits != ""
        && (forall c :: c in digits ==> IsDigit(c)) && Value(digits) == n;
      assert digits[0] in digits;
      assert text == "+" + digits ==> text[0] == '+' && text[1..] == digits;
    }
    if ParseU64(text) == Some(n) {
      var digits := if |text| > 1 && text[0] == '+' then text[1..] else text;
      assert text == digits || text == "+" + digits;
    }
  }

  /** The parts of a header: where the reply starts, where it ends, and the whole
      length, parted by the first slash and the first dash before it. */
  ghost predicate Parts(header: string, first: string, last: string, length: string) {
    header == "bytes " + (first + "-" + last + "/" + length) && '-' !in first && '/' !in first && '/' !in last
  }

  /** A header is confirmed exactly when its parts are the numbers they should be; for
      an empty file, exactly when its end is no number at all. */
  lemma ConfirmedHeader(header: string, start: nat, total: nat)
    ensures Confirmed(Some(header), start, total) <==>
      exists first: string, last: string, length: string {:trigger Parts(header, first, last, length)} ::
        && Parts(header, first, last, length)
        && ParseU64(first) == Some(start) && ParseU64(length) == Some(total)
        && (if total == 0 then ParseU64(last).None? else ParseU64(last) == Some(total - 1))
  {
    hide ParseU64, SplitOnce;
    if Confirmed(Some(header), start, total) {
      var range := SplitOnce(header[6..], '/').value;
      var ends := SplitOnce(range.0, '-').value;
      assert header == "bytes " + header[6..];
      assert header == "bytes " + (ends.0 + "-" + ends.1 + "/" + range.1);
      assert forall c :: c in ends.0 || c in ends.1 ==> c in range.0;
      assert Parts(header, ends.0, ends.1, range.1);
    }
    if first: string, last: string, length: string {:trigger Parts(header, first, last, length)} :|
        && Parts(header, first, last, length)
        && ParseU64(first) == Some(start) && ParseU64(length) == Some(total)
        && (if total == 0 then ParseU64(last).None? else ParseU64(last) == Some(total - 1))
    {
      var range := first + "-" + last;
      assert header[6..] == range + ['/'] + length;
      SplitAt(range, '/', length);
      SplitAt(first, '-', last);
    }
  }

  /** A truthful header is confirmed exactly when the reply starts where the
      download stopped and runs to the end of the expected file. */
  lemma TruthfulHeaderConfirms(first: nat, last: nat, length: nat, start: nat, total: nat)
    requires first < U64 && last < U64 && length < U64
    ensures Confirmed(Some(RangeHeader(first, last, length)), start, total)
      <==> first == start && length == total && total > 0 && last == total - 1
  {
    hide ParseU64, Decimal, SplitOnce;
    var f, l, t := Decimal(first), Decimal(last), Decimal(length);
    var header := RangeHeader(first, last, length);
    var range := f + "-" + l;
    assert header[6..] == range + ['/'] + t;
    NoMark(f, '/'); NoMark(l, '/'); NoMark(f, '-');
    SplitAt(range, '/', t);
    SplitAt(f, '-', l);
    DecimalParses(first); DecimalParses(last); DecimalParses(length);
  }

  lemma NoMark(digits: string, mark: char)
    requires (forall c :: c in digits ==> IsDigit(c)) && !IsDigit(mark)
    ensures mark !in digits
  {
  }
}

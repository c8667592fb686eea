/**
  The text the widget stores under its payload key. `cacheReviews` serialises with
  `JSON.stringify` and `getCachedReviews` reads back with `JSON.parse`; this model uses a length-prefixed
  text instead, and all that the widget relies on is kept: the encoding is never the empty
  string, decoding what was encoded gives the same reviews back, and decoding can fail
  (a payload that `JSON.parse` would reject).

  Layout: `<count>:` then, per review, `<rating>:` (with a leading `-` when negative),
  `<length>:<text>` and `<length>:<author>`.
 */
module Codec {
  import opened Wrappers
  import opened Decimal
  import opened Provider

  /** A decoded value and the text left after it. */
  datatype Parsed<T> = Parsed(value: T, rest: string)

  function EncodeNat(n: nat): string {
    NatToDecimal(n) + ":"
  }

  function EncodeInt(i: int): string {
    if i < 0 then "-" + EncodeNat(-i) else EncodeNat(i)
  }

  function EncodeField(s: string): string {
    EncodeNat(|s|) + s
  }

  function EncodeReview(r: Review): string {
    EncodeInt(r.rating) + EncodeField(r.text) + EncodeField(r.authorName)
  }

  function EncodeList(rs: seq<Review>): string {
    if rs == [] then "" else EncodeReview(rs[0]) + EncodeList(rs[1..])
  }

  /** Stands for `JSON.stringify(reviews)`. */
  function EncodeReviews(rs: seq<Review>): (s: string)
    ensures s != ""
  {
    EncodeNat(|rs|) + EncodeList(rs)
  }

  function ReadNat(s: string): Option<Parsed<nat>> {
    var k := LeadingDigits(s);
    if 0 < k < |s| && s[k] == ':' then Some(Parsed(DigitsValue(s[..k]), s[k + 1..])) else None
  }

  function ReadInt(s: string): Option<Parsed<int>> {
    if |s| > 0 && s[0] == '-' then
      match ReadNat(s[1..])
      case Some(p) => Some(Parsed(-(p.value as int), p.rest))
      case None => None
    else
      match ReadNat(s)
      case Some(p) => Some(Parsed(p.value as int, p.rest))
      case None => None
  }

  function ReadField(s: string): Option<Parsed<string>> {
    match ReadNat(s)
    case Some(p) => if p.value <= |p.rest| then Some(Parsed(p.rest[..p.value], p.rest[p.value..])) else None
    case None => None
  }

  function ReadReview(s: string): Option<Parsed<Review>> {
    match ReadInt(s)
    case None => None
    case Some(rating) =>
      match ReadField(rating.rest)
      case None => None
      case Some(text) =>
        match ReadField(text.rest)
        case None => None
        case Some(author) => Some(Parsed(Review(author.value, rating.value, text.value), author.rest))
  }

  function ReadList(count: nat, s: string): Option<Parsed<seq<Review>>> {
    if count == 0 then Some(Parsed([], s))
    else
      match ReadReview(s)
      case None => None
      case Some(first) =>
        match ReadList(count - 1, first.rest)
        case None => None
        case Some(others) => Some(Parsed([first.value] + others.value, others.rest))
  }

  /** Stands for `JSON.parse(cached)`; None is a payload that does not parse. */
  function DecodeReviews(s: string): (r: Option<seq<Review>>)
    ensures s == "" ==> r.None?
  {
    match ReadNat(s)
    case None => None
    case Some(count) =>
      match ReadList(count.value, count.rest)
      case None => None
      case Some(list) => if list.rest == "" then Some(list.value) else None
  }

  lemma ReadNatEncoded(n: nat, rest: string)
    ensures ReadNat(EncodeNat(n) + rest) == Some(Parsed(n, rest))
  {
    var d := NatToDecimal(n);
    var s := EncodeNat(n) + rest;
    assert s == d + (":" + rest);
    LeadingDigitsOfDigits(d, ":" + rest);
    assert s[..|d|] == d;
    assert s[|d| + 1..] == rest;
    DigitsValueOfDecimal(n);
  }

  lemma ReadIntEncoded(i: int, rest: string)
    ensures ReadInt(EncodeInt(i) + rest) == Some(Parsed(i, rest))
  {
    if i < 0 {
      var s := EncodeInt(i) + rest;
      assert s[1..] == EncodeNat(-i) + rest;
      ReadNatEncoded(-i, rest);
    } else {
      ReadNatEncoded(i, rest);
      assert NatToDecimal(i)[0] != '-';
    }
  }

  lemma ReadFieldEncoded(t: string, rest: string)
    ensures ReadField(EncodeField(t) + rest) == Some(Parsed(t, rest))
  {
    assert EncodeField(t) + rest == EncodeNat(|t|) + (t + rest);
    ReadNatEncoded(|t|, t + rest);
    assert (t + rest)[..|t|] == t;
    assert (t + rest)[|t|..] == rest;
  }

  lemma EncodeReviewSplit(r: Review, rest: string)
    ensures EncodeReview(r) + rest ==
      EncodeInt(r.rating) + (EncodeField(r.text) + (EncodeField(r.authorName) + rest))
  {
  }

  /** Reading a review: its rating, then its text, then its author. */
  lemma ReadReviewStep(s: string, rating: Parsed<int>, text: Parsed<string>, author: Parsed<string>)
    requires ReadInt(s) == Some(rating)
    requires ReadField(rating.rest) == Some(text)
    requires ReadField(text.rest) == Some(author)
    ensures ReadReview(s) == Some(Parsed(Review(author.value, rating.value, text.value), author.rest))
  {
  }

  lemma ReadReviewEncoded(r: Review, rest: string)
    ensures ReadReview(EncodeReview(r) + rest) == Some(Parsed(r, rest))
  {
    var afterText := EncodeField(r.authorName) + rest;
    var afterRating := EncodeField(r.text) + afterText;
    EncodeReviewSplit(r, rest);
    ReadIntEncoded(r.rating, afterRating);
    ReadFieldEncoded(r.text, afterText);
    ReadFieldEncoded(r.authorName, rest);
    ReadReviewStep(EncodeReview(r) + rest, Parsed(r.rating, afterRating),
                   Parsed(r.text, afterText), Parsed(r.authorName, rest));
  }

  /** One step of reading a list: a review, then the rest of the list. */
  lemma ReadListStep(count: nat, s: string, first: Parsed<Review>, others: Parsed<seq<Review>>)
    requires count > 0
    requires ReadReview(s) == Some(first)
    requires ReadList(count - 1, first.rest) == Some(others)
    ensures ReadList(count, s) == Some(Parsed([first.value] + others.value, others.rest))
  {
  }

  lemma EncodeListCons(rs: seq<Review>, rest: string)
    requires rs != []
    ensures EncodeList(rs) + rest == EncodeReview(rs[0]) + (EncodeList(rs[1..]) + rest)
  {
  }

  lemma {:induction false} ReadListEncoded(rs: seq<Review>, rest: string)
    ensures ReadList(|rs|, EncodeList(rs) + rest) == Some(Parsed(rs, rest))
  {
    if rs != [] {
      var tail := EncodeList(rs[1..]) + rest;
      EncodeListCons(rs, rest);
      ReadReviewEncoded(rs[0], tail);
      ReadListEncoded(rs[1..], rest);
      ReadListStep(|rs|, EncodeList(rs) + rest, Parsed(rs[0], tail), Parsed(rs[1..], rest));
      assert [rs[0]] + rs[1..] == rs;
    } else {
      assert EncodeList(rs) + rest == rest;
    }
  }

  /** Parsing what was stringified gives back the same reviews, in the same order. */
  lemma DecodeEncoded(rs: seq<Review>)
    ensures DecodeReviews(EncodeReviews(rs)) == Some(rs)
  {
    ReadNatEncoded(|rs|, EncodeList(rs));
    ReadListEncoded(rs, "");
    assert EncodeList(rs) + "" == EncodeList(rs);
  }
}

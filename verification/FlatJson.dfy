/** Members of flat JSON objects, and the text form of the numbers in them. */
module FlatJson {
  import opened Wrappers

  datatype Scalar = Null | Text(text: string) | Number(n: int) | Flag(b: bool) | Texts(items: seq<string>)

  /** The decimal text of a number and its parser. */
  datatype Decimals = Decimals(print_: real -> string, parse: string -> Option<real>) {
    /** `x` is a number that a decimal text can carry: exact reals outnumber texts. */
    predicate Reads(x: real) {
      parse(print_(x)).Some?
    }

    predicate AllRead(v: Option<real>) {
      v.Some? ==> Reads(v.value)
    }

    /** No text is empty, and one that reads at all reads as the number it was printed from. */
    ghost predicate Faithful() {
      forall x: real :: print_(x) != "" && (Reads(x) ==> parse(print_(x)) == Some(x))
    }

    predicate ClosedAt(x: real, y: real) {
      Reads(x) && Reads(y) ==> Reads(x + y) && Reads(x - y) && Reads(x * y) && (y != 0.0 ==> Reads(x / y))
    }

    /** Arithmetic on numbers that have texts stays among them, as for fractions of integers. */
    ghost predicate Closed() {
      Reads(0.0) && forall x: real, y: real {:trigger ClosedAt(x, y)} :: ClosedAt(x, y)
    }

    function Optional(v: Option<real>): Scalar {
      if v.None? then Null else Text(print_(v.value))
    }
  }

  lemma NumberRoundTrip(d: Decimals, x: real)
    requires d.Faithful()
    ensures d.print_(x) != "" && d.parse(d.print_(x)) == if d.Reads(x) then Some(x) else None
  {
  }

  lemma SumReads(d: Decimals, x: real, y: real)
    requires d.Closed() && d.Reads(x) && d.Reads(y)
    ensures d.Reads(x + y) && d.Reads(x - y)
  {
    assert d.ClosedAt(x, y);
  }

  /** The results are parameters, so that the caller's products need not be recognised. */
  lemma ProductReads(d: Decimals, x: real, y: real, product: real)
    requires d.Closed() && d.Reads(x) && d.Reads(y) && product == x * y
    ensures d.Reads(product)
  {
    assert d.ClosedAt(x, y);
  }

  lemma QuotientReads(d: Decimals, x: real, y: real, quotient: real)
    requires d.Closed() && d.Reads(x) && d.Reads(y) && y != 0.0 && quotient == x / y
    ensures d.Reads(quotient)
  {
    assert d.ClosedAt(x, y);
  }

  /** A member that must be there and be text. */
  function TextAt<F>(d: map<F, Scalar>, f: F): Option<string> {
    if f in d && d[f].Text? then Some(d[f].text) else None
  }

  /** A number that may be null; the member must be there. */
  function OptionalAt<F>(t: Decimals, d: map<F, Scalar>, f: F): Option<Option<real>> {
    if f !in d then None
    else if d[f].Null? then Some(None)
    else if d[f].Text? && t.parse(d[f].text).Some? then Some(t.parse(d[f].text))
    else None
  }

  predicate IsText<F>(d: map<F, Scalar>, f: F, s: string) {
    f in d && d[f] == Text(s)
  }

  predicate IsNumber<F>(t: Decimals, d: map<F, Scalar>, f: F, x: real) {
    f in d && d[f].Text? && t.parse(d[f].text) == Some(x)
  }

  lemma OptionalRoundTrip<F>(t: Decimals, d: map<F, Scalar>, f: F, v: Option<real>)
    requires t.Faithful() && f in d && d[f] == t.Optional(v)
    ensures OptionalAt(t, d, f) == if t.AllRead(v) then Some(v) else None
    ensures d[f] != Text("")
  {
    if v.Some? {
      NumberRoundTrip(t, v.value);
    }
  }
}

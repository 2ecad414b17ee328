/** The part of Go's `fmt.Sprintf` that the roles URL goes through:
    formats whose only verbs are `%s` (a string operand) and `%%` (a
    literal percent sign), with string operands. Go marks a `%s` that has
    no operand left as `%!s(MISSING)`, a `%` that ends the format as
    `%!(NOVERB)`, and appends unused operands as
    `%!(EXTRA string=a, string=b)`. */
module GoFormat {

  /** Every `%` of `f` is followed by `s` or `%`, or ends `f`. */
  predicate Supported(f: string)
    decreases |f|
  {
    if f == [] then true
    else if f[0] != '%' then Supported(f[1..])
    else if |f| == 1 then true
    else (f[1] == 's' || f[1] == '%') && Supported(f[2..])
  }

  /** Formats `f`, taking operands from the front of `args`; gives the
      text and the operands left over. */
  function Scan(f: string, args: seq<string>): (r: (string, seq<string>))
    requires Supported(f)
    ensures |r.1| <= |args|
    decreases |f|
  {
    if f == [] then ("", args)
    else if f[0] != '%' then
      var t := Scan(f[1..], args);
      ([f[0]] + t.0, t.1)
    else if |f| == 1 then ("%!(NOVERB)", args)
    else if f[1] == '%' then
      var t := Scan(f[2..], args);
      ("%" + t.0, t.1)
    else if args == [] then
      var t := Scan(f[2..], args);
      ("%!s(MISSING)" + t.0, t.1)
    else
      var t := Scan(f[2..], args[1..]);
      (args[0] + t.0, t.1)
  }

  function ExtraList(args: seq<string>): string {
    if args == [] then ""
    else if |args| == 1 then "string=" + args[0]
    else "string=" + args[0] + ", " + ExtraList(args[1..])
  }

  /** The note Go appends for operands the format did not use. */
  function Extra(args: seq<string>): (s: string)
    ensures s == "" <==> args == []
  {
    if args == [] then "" else "%!(EXTRA " + ExtraList(args) + ")"
  }

  /** The formatted text followed by the note on unused operands. A
      format without `%` is copied as it is and every operand is noted as
      unused. */
  function Sprintf(f: string, args: seq<string>): (r: string)
    requires Supported(f)
    ensures '%' !in f ==> r == f + Extra(args)
  {
    var t := Scan(f, args);
    assert '%' !in f ==> t == (f, args) by {
      if '%' !in f {
        ScanPlain(f, args);
      }
    }
    t.0 + Extra(t.1)
  }

  /** Text without a `%` is copied as it is and uses no operand. */
  lemma {:induction false} ScanLiteral(h: string, t: string, args: seq<string>)
    requires '%' !in h
    ensures Supported(h + t) == Supported(t)
    ensures Supported(t) ==> Scan(h + t, args) == (h + Scan(t, args).0, Scan(t, args).1)
  {
    if h != [] {
      assert h[0] in h;
      assert forall c :: c in h[1..] ==> c in h;
      assert (h + t)[0] == h[0] && (h + t)[1..] == h[1..] + t;
      ScanLiteral(h[1..], t, args);
      if Supported(t) {
        var x := Scan(t, args).0;
        assert Scan(h + t, args).0 == [h[0]] + Scan(h[1..] + t, args).0;
        assert [h[0]] + (h[1..] + x) == h + x;
      }
    } else {
      assert h + t == t;
      if Supported(t) {
        assert h + Scan(t, args).0 == Scan(t, args).0;
      }
    }
  }

  /** A `%s` takes the next operand. */
  lemma ScanVerb(t: string, a: string, args: seq<string>)
    requires Supported(t)
    ensures Supported("%s" + t)
    ensures Scan("%s" + t, [a] + args) == (a + Scan(t, args).0, Scan(t, args).1)
  {
  }

  /** A `%s` with no operand left is marked as missing. */
  lemma ScanMissing(t: string)
    requires Supported(t)
    ensures Supported("%s" + t)
    ensures Scan("%s" + t, []) == ("%!s(MISSING)" + Scan(t, []).0, Scan(t, []).1)
  {
  }

  /** Text without a `%` formats to itself and uses no operand. */
  lemma ScanPlain(t: string, args: seq<string>)
    requires '%' !in t
    ensures Supported(t) && Scan(t, args) == (t, args)
  {
    ScanLiteral(t, "", args);
    assert t + "" == t;
  }

  /** A format whose operands are all used formats to its text alone. */
  lemma SprintfUsesAll(f: string, args: seq<string>)
    requires Supported(f) && Scan(f, args).1 == []
    ensures Sprintf(f, args) == Scan(f, args).0
  {
    assert Scan(f, args).0 + "" == Scan(f, args).0;
  }

  /** Text, one `%s` and text, all without `%`, given one operand. */
  lemma ScanOneVerb(q: string, t: string, b: string)
    requires '%' !in q && '%' !in t
    ensures Supported(q + ("%s" + t))
    ensures Scan(q + ("%s" + t), [b]) == (q + (b + t), [])
  {
    ScanPlain(t, []);
    ScanVerb(t, b, []);
    ScanLiteral(q, "%s" + t, [b]);
  }

  /** Text, one `%s` and text, all without `%`, with no operand left. */
  lemma ScanOneMissing(q: string, t: string)
    requires '%' !in q && '%' !in t
    ensures Supported(q + ("%s" + t))
    ensures Scan(q + ("%s" + t), []) == (q + ("%!s(MISSING)" + t), [])
  {
    ScanPlain(t, []);
    ScanMissing(t);
    ScanLiteral(q, "%s" + t, []);
  }

  /** A format with two `%s` verbs between texts without `%`, given two
      operands, puts them in place in order and adds nothing. */
  lemma FormatTwo(h: string, p: string, q: string, t: string, a: string, b: string)
    requires '%' !in h && '%' !in p && '%' !in q && '%' !in t
    ensures Supported(h + (p + ("%s" + (q + ("%s" + t)))))
    ensures Sprintf(h + (p + ("%s" + (q + ("%s" + t)))), [a, b]) == h + (p + (a + (q + (b + t))))
  {
    var s3 := q + ("%s" + t);
    ScanOneVerb(q, t, b);
    ScanVerb(s3, a, [b]);
    assert [a] + [b] == [a, b];
    ScanLiteral(p, "%s" + s3, [a, b]);
    ScanLiteral(h, p + ("%s" + s3), [a, b]);
    SprintfUsesAll(h + (p + ("%s" + s3)), [a, b]);
  }

  /** With one more `%s` before them, the first operand fills that
      verb, the second the next one, and the last verb is marked as
      missing. */
  lemma FormatTwoShifted(h: string, p: string, q: string, t: string, a: string, b: string)
    requires '%' !in h && '%' !in p && '%' !in q && '%' !in t
    ensures Supported(h + ("%s" + (p + ("%s" + (q + ("%s" + t))))))
    ensures Sprintf(h + ("%s" + (p + ("%s" + (q + ("%s" + t))))), [a, b])
         == h + (a + (p + (b + (q + ("%!s(MISSING)" + t)))))
  {
    var s3 := q + ("%s" + t);
    var s1 := p + ("%s" + s3);
    ScanOneMissing(q, t);
    ScanVerb(s3, b, []);
    ScanLiteral(p, "%s" + s3, [b]);
    ScanVerb(s1, a, [b]);
    assert [a] + [b] == [a, b];
    ScanLiteral(h, "%s" + s1, [a, b]);
    SprintfUsesAll(h + ("%s" + s1), [a, b]);
  }
}

/**
 * Identifier helpers: the canonical table/column key (`normalize`) and the
 * quoting of identifiers when SQL is emitted (`needsQuote`, `quoteIdent`).
 *
 * `ReadIdent` is not part of the program: it reads a (possibly dotted,
 * possibly double-quoted) SQL identifier back into its segments, and serves
 * as the inverse against which `QuoteIdent` is proved.
 */
module Idents {
  import opened Text

  // ---------------------------------------------------------------- normalize

  /** `/^public\./i` matches: the string begins with `public.` in any letter case. */
  predicate HasPublicPrefix(s: string)
  {
    |s| >= 7 && Lower(s[..7]) == "public."
  }

  /** `stripSchema`: drops a leading `public.` (any letter case) and nothing else. */
  function StripSchema(s: string): string
  {
    if HasPublicPrefix(s) then s[7..] else s
  }

  predicate AllQuotes(s: string)
  {
    forall i :: 0 <= i < |s| ==> s[i] == '"'
  }

  /** The length of the run of double quotes that starts `s`. */
  function LeadingQuotes(s: string): (n: nat)
    ensures n <= |s| && AllQuotes(s[..n])
    ensures n == |s| || s[n] != '"'
  {
    if |s| > 0 && s[0] == '"' then
      var m := LeadingQuotes(s[1..]);
      assert s[..m + 1] == [s[0]] + s[1..][..m];
      m + 1
    else 0
  }

  /** The length of the run of double quotes that ends `s`. */
  function TrailingQuotes(s: string): (n: nat)
    ensures n <= |s| && AllQuotes(s[|s| - n..])
    ensures n == |s| || s[|s| - n - 1] != '"'
  {
    if |s| > 0 && s[|s| - 1] == '"' then
      var init := s[..|s| - 1];
      var m := TrailingQuotes(init);
      assert s[|s| - (m + 1)..] == init[|init| - m..] + [s[|s| - 1]];
      m + 1
    else 0
  }

  /**
   * `unquote`, i.e. `s.replace(/^"+|"+$/g, '')`: removes the whole run of
   * double quotes at the start and then the whole run at the end.
   */
  function Unquote(s: string): (r: string)
    ensures |r| == 0 || (r[0] != '"' && r[|r| - 1] != '"')
    ensures |r| <= |s|
  {
    var t := s[LeadingQuotes(s)..];
    t[..|t| - TrailingQuotes(t)]
  }

  lemma {:induction false} LeadingQuotesAfter(q: string, t: string)
    requires AllQuotes(q)
    ensures LeadingQuotes(q + t) == |q| + LeadingQuotes(t)
  {
    if |q| > 0 {
      assert (q + t)[1..] == q[1..] + t;
      LeadingQuotesAfter(q[1..], t);
    } else {
      assert q + t == t;
    }
  }

  lemma {:induction false} TrailingQuotesBefore(t: string, q: string)
    requires AllQuotes(q)
    ensures TrailingQuotes(t + q) == |q| + TrailingQuotes(t)
  {
    if |q| > 0 {
      assert (t + q)[..|t + q| - 1] == t + q[..|q| - 1];
      TrailingQuotesBefore(t, q[..|q| - 1]);
    } else {
      assert t + q == t;
    }
  }

  /** What `Unquote` keeps is exactly what lies between the outer quote runs. */
  lemma UnquoteWrapped(q1: string, r: string, q2: string)
    requires AllQuotes(q1) && AllQuotes(q2)
    requires |r| == 0 || (r[0] != '"' && r[|r| - 1] != '"')
    ensures Unquote(q1 + r + q2) == r
  {
    var s := q1 + r + q2;
    if |r| > 0 {
      LeadingQuotesAfter(q1, r + q2);
      assert s == q1 + (r + q2);
      assert s[|q1|..] == r + q2;
      TrailingQuotesBefore(r, q2);
    } else {
      assert AllQuotes(s);
      LeadingQuotesAfter(s, "");
      assert s + "" == s;
    }
  }

  /** `normalize`: the table/column key: schema `public.` dropped, outer quotes dropped, lower-cased. */
  function Normalize(s: string): (r: string)
    ensures forall i :: 0 <= i < |r| ==> !IsUpper(r[i])
    ensures |r| == 0 || (r[0] != '"' && r[|r| - 1] != '"')
    ensures |r| <= |s|
  {
    var u := Unquote(StripSchema(s));
    var r := Lower(u);
    assert |r| == 0 || (r[0] == LowerChar(u[0]) && r[|r| - 1] == LowerChar(u[|u| - 1]));
    r
  }

  /** `public.` in any letter case, followed by a name that does not itself start with `public.`, is the same key as the bare name. */
  lemma NormalizePublic(p: string, s: string)
    requires |p| == 7 && Lower(p) == "public."
    ensures Normalize(p + s) == Lower(Unquote(s))
    ensures !HasPublicPrefix(s) ==> Normalize(p + s) == Normalize(s)
  {
    assert (p + s)[..7] == p;
    assert (p + s)[7..] == s;
  }

  lemma Unwrapped(s: string)
    requires |s| == 0 || (s[0] != '"' && s[|s| - 1] != '"')
    ensures Unquote(s) == s
  {
    UnquoteWrapped("", s, "");
    assert "" + s + "" == s;
  }

  lemma OtherSchemaNotPublic(schema: string, name: string)
    requires '.' !in schema && Lower(schema) != "public"
    ensures !HasPublicPrefix(schema + "." + name)
  {
    var s := schema + "." + name;
    var k := |schema|;
    assert s[k] == '.';
    if |s| >= 7 {
      var l := Lower(s[..7]);
      if k < 6 {
        assert l[k] == LowerChar(s[k]) == '.';
        assert forall j :: 0 <= j < 6 ==> "public."[j] != '.';
      } else if k == 6 {
        assert s[..7] == schema + ".";
        LowerAppend(schema, ".");
        assert l[..6] == Lower(schema);
      } else {
        assert s[6] == schema[6];
        assert schema[6] != '.';
        assert l[6] == LowerChar(schema[6]);
      }
    }
  }

  /** Any other schema prefix (one without a dot) is kept and lower-cased with the name. */
  lemma NormalizeOtherSchema(schema: string, name: string)
    requires '.' !in schema && Lower(schema) != "public"
    requires |schema| > 0 && schema[0] != '"'
    requires |name| > 0 && name[|name| - 1] != '"'
    ensures Normalize(schema + "." + name) == Lower(schema) + "." + Lower(name)
  {
    var s := schema + "." + name;
    OtherSchemaNotPublic(schema, name);
    assert s[0] == schema[0] && s[|s| - 1] == name[|name| - 1];
    Unwrapped(s);
    assert Normalize(s) == Lower(s);
    LowerAppend(schema + ".", name);
    LowerAppend(schema, ".");
    assert Lower(".") == ".";
  }

  /** A name wrapped in one pair of quotes loses exactly that pair. */
  lemma UnquoteOnePair(r: string)
    requires |r| > 0 && r[0] != '"' && r[|r| - 1] != '"'
    ensures Unquote("\"" + r + "\"") == r
  {
    UnquoteWrapped("\"", r, "\"");
  }

  /** A name in one pair of quotes is keyed by the lower-cased name: the quotes go, a dot inside stays. */
  lemma QuotedKey(r: string)
    requires |r| > 0 && r[0] != '"' && r[|r| - 1] != '"'
    ensures Normalize("\"" + r + "\"") == Lower(r)
  {
    var s := "\"" + r + "\"";
    assert !HasPublicPrefix(s) by {
      if |s| >= 7 {
        assert Lower(s[..7])[0] == LowerChar('"') == '"';
      }
    }
    UnquoteOnePair(r);
  }

  /** Under `public.`, the same holds: the prefix goes first, then the quotes. */
  lemma PublicQuotedKey(r: string)
    requires |r| > 0 && r[0] != '"' && r[|r| - 1] != '"'
    ensures Normalize("public." + ("\"" + r + "\"")) == Lower(r)
  {
    PublicLower();
    NormalizePublic("public.", "\"" + r + "\"");
    UnquoteOnePair(r);
  }

  lemma PublicLower()
    ensures Lower("public.") == "public."
  {
  }

  lemma PublicCustomersKey()
    ensures Normalize("public." + ("\"" + "Customers" + "\"")) == "customers"
  {
    PublicQuotedKey("Customers");
    CustomersLower();
  }

  lemma CustomersLower()
    ensures Lower("Customers") == "customers"
  {
  }

  lemma WeirdNameKey()
    ensures Normalize("\"" + "Weird.Name" + "\"") == "weird.name"
  {
    QuotedKey("Weird.Name");
    WeirdLower();
  }

  lemma WeirdLower()
    ensures Lower("Weird.Name") == "weird.name"
  {
  }

  lemma QuotedPublicKey()
    ensures Normalize("\"" + "public.x" + "\"") == "public.x"
  {
    QuotedKey("public.x");
    PublicXLower();
  }

  lemma PublicXLower()
    ensures Lower("public.x") == "public.x"
  {
  }

  lemma PublicXKey()
    ensures Normalize("public." + "x") == "x"
  {
    PublicLower();
    NormalizePublic("public.", "x");
    Unwrapped("x");
    assert Lower("x") == "x";
  }

  /** `normalize` is not idempotent: a quoted `public.`-name loses its prefix only the second time. */
  lemma NormalizeNotIdempotent()
    ensures Normalize("\"" + "public.x" + "\"") == "public.x"
    ensures Normalize(Normalize("\"" + "public.x" + "\"")) == "x"
  {
    QuotedPublicKey();
    PublicXKey();
    assert "public." + "x" == "public.x";
  }

  // ---------------------------------------------------------------- quoting

  predicate IsIdentStart(c: char) { 'a' <= c <= 'z' || c == '_' }

  predicate IsIdentChar(c: char) { IsIdentStart(c) || '0' <= c <= '9' }

  /** `needsQuote`: the name is not a match of `^[a-z_][a-z0-9_]*$`. */
  predicate NeedsQuote(s: string)
  {
    !(|s| > 0 && IsIdentStart(s[0]) && forall i :: 1 <= i < |s| ==> IsIdentChar(s[i]))
  }

  /** A name that needs no quoting is its own key: it has no quote, no dot and no upper case. */
  lemma SimpleIsNormal(s: string)
    requires !NeedsQuote(s)
    ensures '"' !in s && '.' !in s && !HasPublicPrefix(s)
    ensures Normalize(s) == s
  {
    assert forall i :: 0 <= i < |s| ==> IsIdentChar(s[i]);
    if |s| >= 7 {
      assert Lower(s[..7])[6] == LowerChar(s[6]) != '.';
    }
    assert StripSchema(s) == s;
    Unwrapped(s);
    assert Lower(s) == s;
  }

  /** Every `"` doubled, as `p.replace(/"/g, '""')`. */
  function EscapeQuotes(p: string): string
  {
    if |p| == 0 then ""
    else (if p[0] == '"' then "\"\"" else [p[0]]) + EscapeQuotes(p[1..])
  }

  function QuoteSegment(p: string, force: bool): string
  {
    if force || NeedsQuote(p) then "\"" + EscapeQuotes(p) + "\"" else p
  }

  /**
   * `quoteIdent`: splits on every dot; a dotted name has every segment
   * quoted, an undotted one only when it needs it; quotes inside a quoted
   * segment are doubled; segments are joined by dots.
   */
  function QuoteIdent(name: string): string
  {
    var parts := Split(name, '.');
    var force := |parts| > 1;
    Join(seq(|parts|, i requires 0 <= i < |parts| => QuoteSegment(parts[i], force)), ".")
  }

  // ---------------------------------------------------------------- reading identifiers back

  /** Content of a quoted segment whose opening quote is already consumed, and what follows its closing quote. */
  function ReadQuoted(s: string): (r: Option<(string, string)>)
    ensures r.Some? ==> |r.value.1| < |s|
  {
    if |s| == 0 then None
    else if s[0] == '"' then
      if |s| >= 2 && s[1] == '"' then
        match ReadQuoted(s[2..])
        case None => None
        case Some((c, rest)) => Some(("\"" + c, rest))
      else Some(("", s[1..]))
    else
      match ReadQuoted(s[1..])
      case None => None
      case Some((c, rest)) => Some(([s[0]] + c, rest))
  }

  /** Length of an unquoted segment: everything up to the next dot. */
  function BareLength(s: string): (n: nat)
    ensures n <= |s| && '.' !in s[..n]
    ensures n == |s| || s[n] == '.'
  {
    if |s| == 0 || s[0] == '.' then 0
    else
      var m := BareLength(s[1..]);
      assert s[..m + 1] == [s[0]] + s[1..][..m];
      m + 1
  }

  function ReadSegment(s: string): (r: Option<(string, string)>)
    ensures r.Some? ==> |r.value.1| <= |s|
  {
    if |s| > 0 && s[0] == '"' then ReadQuoted(s[1..])
    else Some((s[..BareLength(s)], s[BareLength(s)..]))
  }

  /** The segments of a SQL identifier such as `a."B c".d`, or None when it is malformed. */
  function ReadIdent(s: string): Option<seq<string>>
    decreases |s|
  {
    match ReadSegment(s)
    case None => None
    case Some((seg, rest)) =>
      if rest == "" then Some([seg])
      else if rest[0] == '.' then
        match ReadIdent(rest[1..])
        case None => None
        case Some(segs) => Some([seg] + segs)
      else None
  }

  lemma {:induction false} ReadQuotedEscaped(p: string, rest: string)
    requires rest == "" || rest[0] != '"'
    ensures ReadQuoted(EscapeQuotes(p) + "\"" + rest) == Some((p, rest))
  {
    var s := EscapeQuotes(p) + "\"" + rest;
    if |p| == 0 {
      assert s == "\"" + rest;
      assert s[1..] == rest;
    } else {
      ReadQuotedEscaped(p[1..], rest);
      var tail := EscapeQuotes(p[1..]) + "\"" + rest;
      if p[0] == '"' {
        assert s == "\"\"" + tail;
        assert s[2..] == tail;
        assert "\"" + p[1..] == p;
      } else {
        assert s == [p[0]] + tail;
        assert s[1..] == tail;
        assert [p[0]] + p[1..] == p;
      }
    }
  }

  lemma {:induction false} BareLengthExact(p: string, rest: string)
    requires '.' !in p && (rest == "" || rest[0] == '.')
    ensures BareLength(p + rest) == |p|
  {
    if |p| > 0 {
      assert (p + rest)[1..] == p[1..] + rest;
      BareLengthExact(p[1..], rest);
    } else {
      assert p + rest == rest;
    }
  }

  function QuotedForm(p: string): string
  {
    "\"" + EscapeQuotes(p) + "\""
  }

  lemma ReadSegmentQuoted(p: string, rest: string)
    requires rest == "" || rest[0] == '.'
    ensures ReadSegment(QuotedForm(p) + rest) == Some((p, rest))
  {
    var s := QuotedForm(p) + rest;
    assert s[1..] == EscapeQuotes(p) + "\"" + rest;
    ReadQuotedEscaped(p, rest);
  }

  /** Reading back a dot-joined list of quoted segments gives the segments. */
  lemma {:induction false} ReadJoinedQuoted(parts: seq<string>)
    requires |parts| >= 1
    ensures ReadIdent(Join(seq(|parts|, i requires 0 <= i < |parts| => QuotedForm(parts[i])), ".")) == Some(parts)
  {
    var qs := seq(|parts|, i requires 0 <= i < |parts| => QuotedForm(parts[i]));
    if |parts| == 1 {
      ReadSegmentQuoted(parts[0], "");
      assert QuotedForm(parts[0]) + "" == Join(qs, ".");
      assert parts == [parts[0]];
    } else {
      var tail := parts[1..];
      var tqs := seq(|tail|, i requires 0 <= i < |tail| => QuotedForm(tail[i]));
      assert qs[1..] == tqs;
      var rest := "." + Join(tqs, ".");
      assert Join(qs, ".") == QuotedForm(parts[0]) + rest;
      ReadSegmentQuoted(parts[0], rest);
      ReadJoinedQuoted(tail);
      assert rest[1..] == Join(tqs, ".");
      assert parts == [parts[0]] + tail;
    }
  }

  /** Round trip: the emitted identifier reads back as the segments of the name, so rejoining them gives the name. */
  lemma QuoteIdentReadsBack(name: string)
    ensures ReadIdent(QuoteIdent(name)) == Some(Split(name, '.'))
    ensures Join(Split(name, '.'), ".") == name
  {
    var parts := Split(name, '.');
    var force := |parts| > 1;
    var qs := seq(|parts|, i requires 0 <= i < |parts| => QuoteSegment(parts[i], force));
    if force || NeedsQuote(parts[0]) {
      assert qs == seq(|parts|, i requires 0 <= i < |parts| => QuotedForm(parts[i]));
      ReadJoinedQuoted(parts);
    } else {
      assert |parts| == 1 && qs == [parts[0]];
      assert parts[0][0] != '"';
      BareLengthExact(parts[0], "");
      assert parts[0] + "" == parts[0];
      assert parts == [parts[0]];
    }
  }

  /** A simple undotted name is emitted as it is; `customers` stays `customers`. */
  lemma QuoteIdentSimple(name: string)
    requires !NeedsQuote(name)
    ensures QuoteIdent(name) == name
  {
    SimpleIsNormal(name);
    assert Split(name, '.') == [name];
  }

  lemma {:induction false} EscapeNoQuote(p: string)
    requires '"' !in p
    ensures EscapeQuotes(p) == p
  {
    if |p| > 0 {
      EscapeNoQuote(p[1..]);
      assert [p[0]] + p[1..] == p;
    }
  }

  /** A name with exactly one dot is rendered as two quoted segments. */
  lemma QuoteIdentTwoParts(name: string, a: string, b: string)
    requires Split(name, '.') == [a, b]
    ensures QuoteIdent(name) == QuotedForm(a) + "." + QuotedForm(b)
  {
    var parts := Split(name, '.');
    var qs := seq(|parts|, i requires 0 <= i < |parts| => QuoteSegment(parts[i], |parts| > 1));
    assert qs == [QuotedForm(a), QuotedForm(b)];
    assert Join(qs, ".") == QuotedForm(a) + "." + Join([QuotedForm(b)], ".");
  }

  /** Two simple names joined by a dot are rendered as two quoted segments. */
  lemma QuoteTwoSimple(a: string, b: string)
    requires !NeedsQuote(a) && !NeedsQuote(b)
    ensures QuoteIdent(a + "." + b) == ("\"" + a + "\"") + "." + ("\"" + b + "\"")
  {
    SimpleIsNormal(a);
    SimpleIsNormal(b);
    assert Join([a, b], ".") == a + "." + b by {
      assert [a, b][1..] == [b];
    }
    SplitJoin([a, b], '.');
    QuoteIdentTwoParts(a + "." + b, a, b);
    EscapeNoQuote(a);
    EscapeNoQuote(b);
  }

  lemma QuoteWeirdName()
    ensures QuoteIdent("weird" + "." + "name") == ("\"" + "weird" + "\"") + "." + ("\"" + "name" + "\"")
  {
    assert !NeedsQuote("weird") && !NeedsQuote("name");
    QuoteTwoSimple("weird", "name");
  }

  lemma QuoteCustomers()
    ensures QuoteIdent("customers") == "customers"
  {
    assert !NeedsQuote("customers");
    QuoteIdentSimple("customers");
  }
}

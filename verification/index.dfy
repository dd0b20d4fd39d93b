/** The index document `make_index` renders: a fixed header, one image line
    per catalog entry in catalog order, a fixed footer. */
module Index {
  import opened Wrappers
  import opened Catalog

  const Header: string :=
    "<html>\r\n" +
    " <head>\r\n" +
    "  <meta http-equiv=\"Content-Type\"" + "content=\"text/html; charset=utf-8\" />\r\n" +
    " </head>\r\n" +
    " <body>\r\n"

  const Footer: string := " </body>\r\n" + "</html>\r\n"

  const ImageOpen: string := "  <img src=\""
  const ImageClose: string := "\" /><br />\r\n"

  /** The content type the index is published with. */
  const IndexContentType: string := "text/html"

  function ImageLine(name: string): string
  {
    ImageOpen + name + ImageClose
  }

  /** The image lines for `names`, in order. */
  function Body(names: seq<string>): (r: string)
    ensures r == [] <==> names == []
    ensures names != [] ==> |r| > |ImageOpen| && r[..|ImageOpen|] == ImageOpen
  {
    if names == [] then "" else ImageLine(names[0]) + Body(names[1..])
  }

  /** The document for the given catalog. Every entry gets a line, whatever
      the expiry walk decided about it. */
  function MakeIndex(ks: seq<KnownKey>): (r: string)
    ensures |r| >= |Header| + |Footer|
    ensures r[..|Header|] == Header
    ensures r[|r| - |Footer|..] == Footer
  {
    var r := Header + Body(Names(ks)) + Footer;
    assert r[..|Header|] == Header;
    assert r[|r| - |Footer|..] == Footer;
    r
  }

  /** The position of the first `"` in `s`, or `|s|` if there is none. */
  function FindQuote(s: string): (i: nat)
    ensures i <= |s|
    ensures forall j :: 0 <= j < i ==> s[j] != '"'
    ensures i < |s| ==> s[i] == '"'
  {
    if s == [] || s[0] == '"' then 0 else 1 + FindQuote(s[1..])
  }

  /** Reads image lines back into names; `None` when `s` is not a run of
      image lines. */
  function ParseBody(s: string): Option<seq<string>>
    decreases |s|
  {
    if s == [] then Some([])
    else if |s| < |ImageOpen| || s[..|ImageOpen|] != ImageOpen then None
    else
      var rest := s[|ImageOpen|..];
      var i := FindQuote(rest);
      var after := rest[i..];
      if |after| < |ImageClose| || after[..|ImageClose|] != ImageClose then None
      else
        match ParseBody(after[|ImageClose|..])
        case None => None
        case Some(names) => Some([rest[..i]] + names)
  }

  /** Reads an index document back into the names it lists. */
  function ParseIndex(s: string): Option<seq<string>>
  {
    if |s| < |Header| + |Footer| || s[..|Header|] != Header || s[|s| - |Footer|..] != Footer then None
    else ParseBody(s[|Header|..|s| - |Footer|])
  }

  predicate QuoteFree(names: seq<string>)
  {
    forall i :: 0 <= i < |names| ==> '"' !in names[i]
  }

  /** The first quote after a quote-free name is the one that closes it. */
  lemma FindQuoteAfter(n: string, t: string)
    requires '"' !in n
    requires |t| > 0 && t[0] == '"'
    ensures FindQuote(n + t) == |n|
  {
    assert (n + t)[|n|] == '"';
  }

  /** Reading one image line off the front of `s`. */
  lemma ParseBodyStep(n: string, tail: string)
    requires '"' !in n
    ensures ParseBody(ImageLine(n) + tail)
      == match ParseBody(tail)
         case None => None
         case Some(names) => Some([n] + names)
  {
    var s := ImageLine(n) + tail;
    var closeTail := ImageClose + tail;
    assert s == ImageOpen + (n + closeTail);
    assert s[..|ImageOpen|] == ImageOpen;
    var rest := s[|ImageOpen|..];
    assert rest == n + closeTail;
    FindQuoteAfter(n, closeTail);
    assert rest[..|n|] == n;
    assert rest[|n|..] == closeTail;
    assert closeTail[..|ImageClose|] == ImageClose;
    assert closeTail[|ImageClose|..] == tail;
  }

  lemma QuoteFreeTail(names: seq<string>)
    requires QuoteFree(names) && names != []
    ensures QuoteFree(names[1..]) && '"' !in names[0]
  {
    forall j | 0 <= j < |names[1..]| ensures '"' !in names[1..][j] {
      assert names[1..][j] == names[j + 1];
    }
  }

  lemma BodyCons(names: seq<string>)
    requires names != []
    ensures Body(names) == ImageLine(names[0]) + Body(names[1..])
  {
  }

  /** The image lines can be read back into the names, in order, as long as
      no name holds a `"`. */
  lemma {:induction false} ParseBodyRoundTrip(names: seq<string>)
    requires QuoteFree(names)
    ensures ParseBody(Body(names)) == Some(names)
  {
    if names != [] {
      QuoteFreeTail(names);
      ParseBodyRoundTrip(names[1..]);
      BodyCons(names);
      ParseBodyStep(names[0], Body(names[1..]));
      assert names == [names[0]] + names[1..];
    }
  }

  /** The index lists exactly the catalog's names, one line each, in catalog
      order, between the fixed header and footer. */
  lemma IndexRoundTrip(ks: seq<KnownKey>)
    requires QuoteFree(Names(ks))
    ensures ParseIndex(MakeIndex(ks)) == Some(Names(ks))
  {
    var r := MakeIndex(ks);
    assert r[|Header|..|r| - |Footer|] == Body(Names(ks));
    ParseBodyRoundTrip(Names(ks));
  }

  /** An empty catalog renders to the header followed by the footer. */
  lemma EmptyIndex()
    ensures MakeIndex([]) == Header + Footer
  {
    assert Names([]) == [];
  }
}

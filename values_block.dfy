/** The text of a one-variable inline-data block (section 10.2 of the W3C SPARQL 1.1
    Query Language) as the relation queries write it:

        VALUES ?object {
        <iri-1>
        <iri-2>
        }

    one IRI reference per line, each followed by a newline, closed by `}`.
    A reader of that text (`ParseBlock`) is defined alongside, so that "the block
    lists exactly these IRIs, in this order" is a round trip. */
module ValuesBlock {
  import opened Common

  const Opening: string := "VALUES ?object {\n"

  /** One line of the block: `<uri>` and a newline. */
  function Line(uri: string): string { "<" + uri + ">\n" }

  function Lines(uris: seq<string>): string
  {
    if uris == [] then "" else Line(uris[0]) + Lines(uris[1..])
  }

  /** The whole block for the IRIs `uris`. */
  function Block(uris: seq<string>): string { Opening + Lines(uris) + "}" }

  lemma {:induction false} LinesAppend(a: seq<string>, b: seq<string>)
    ensures Lines(a + b) == Lines(a) + Lines(b)
  {
    if a == [] {
      assert a + b == b;
    } else {
      assert (a + b)[0] == a[0];
      assert (a + b)[1..] == a[1..] + b;
      LinesAppend(a[1..], b);
    }
  }

  lemma LinesSnoc(uris: seq<string>, u: string)
    ensures Lines(uris + [u]) == Lines(uris) + Line(u)
  {
    LinesAppend(uris, [u]);
    assert [u][1..] == [];
  }

  /** An IRI written between angle brackets may not contain `>` (the IRIREF production). */
  predicate Bracketable(uri: string) { forall k :: 0 <= k < |uri| ==> uri[k] != '>' }

  /** Index of the first `>` at or after `from`, or `|s|` when there is none. */
  function CloseAt(s: string, from: nat): (k: nat)
    requires from <= |s|
    ensures from <= k <= |s|
    ensures k < |s| ==> s[k] == '>'
    ensures forall j :: from <= j < k ==> s[j] != '>'
    decreases |s| - from
  {
    if from == |s| || s[from] == '>' then from else CloseAt(s, from + 1)
  }

  lemma {:induction false} CloseAtFinds(s: string, from: nat, m: nat)
    requires from <= m < |s| && s[m] == '>'
    requires forall j :: from <= j < m ==> s[j] != '>'
    ensures CloseAt(s, from) == m
    decreases m - from
  {
    if from < m {
      CloseAtFinds(s, from + 1, m);
    }
  }

  /** Reads lines of the form `<iri>` + newline back into the list of IRIs. */
  function ParseLines(s: string): Option<seq<string>>
    decreases |s|
  {
    if s == [] then Some([])
    else if s[0] != '<' then None
    else
      var k := CloseAt(s, 1);
      if k + 1 < |s| && s[k + 1] == '\n' then
        match ParseLines(s[k + 2..])
        case None => None
        case Some(rest) => Some([s[1..k]] + rest)
      else None
  }

  /** Reads a whole block back: the opening, the lines, the closing brace. */
  function ParseBlock(text: string): Option<seq<string>>
  {
    if |text| >= |Opening| + 1 && text[..|Opening|] == Opening && text[|text| - 1] == '}'
    then ParseLines(text[|Opening|..|text| - 1])
    else None
  }

  lemma {:induction false} ParseLinesRoundTrip(uris: seq<string>)
    requires forall k :: 0 <= k < |uris| ==> Bracketable(uris[k])
    ensures ParseLines(Lines(uris)) == Some(uris)
  {
    if uris != [] {
      var u := uris[0];
      var s := Lines(uris);
      assert s == "<" + u + ">\n" + Lines(uris[1..]);
      assert s[|u| + 1] == '>';
      assert forall j :: 1 <= j < |u| + 1 ==> s[j] == u[j - 1];
      CloseAtFinds(s, 1, |u| + 1);
      assert s[|u| + 3..] == Lines(uris[1..]);
      assert s[1..|u| + 1] == u;
      ParseLinesRoundTrip(uris[1..]);
      assert [u] + uris[1..] == uris;
    }
  }

  /** The block lists exactly `uris`, in order, one per line. */
  lemma BlockRoundTrip(uris: seq<string>)
    requires forall k :: 0 <= k < |uris| ==> Bracketable(uris[k])
    ensures ParseBlock(Block(uris)) == Some(uris)
  {
    var text := Block(uris);
    assert text[..|Opening|] == Opening;
    assert text[|Opening|..|text| - 1] == Lines(uris);
    ParseLinesRoundTrip(uris);
  }
}

/** Running one check group for a request: the overall status and the JSON
    body listing every check's result. */
module Handle {
  import opened Wrappers
  import opened OrderedMaps
  import opened CheckMaps

  /** The two status codes the evaluator answers with. */
  datatype HttpStatus = OK | InternalServerError

  /** `StringBuilder.append(Boolean)`: the literal `true` or `false`. */
  function BoolText(b: bool): (t: string)
    ensures t == "true" <==> b
    ensures t == "false" <==> !b
  {
    if b then "true" else "false"
  }

  /** One entry as appended after its prefix: the name exactly as given (no
      escaping), a closing quote, a colon and the value. */
  function EntryText(k: string, v: bool): string {
    k + "\":" + BoolText(v)
  }

  /** The text between the braces, in the order the loop appends it: the
      prefix in force (a quote for the first entry, a comma and a quote for
      every later one) followed by the entry. */
  function Members(res: Results): (m: string)
    ensures m == [] <==> res == []
    ensures res != [] ==> m[0] == '"'
  {
    if res == [] then ""
    else
      var last := res[|res| - 1];
      Members(res[..|res| - 1]) + (if |res| == 1 then "\"" else ",\"") + EntryText(last.0, last.1)
  }

  /** The body `checksResultsToJSON` produces. */
  function Json(res: Results): (s: string)
    ensures |s| >= 2 && s[0] == '{' && s[|s| - 1] == '}'
    ensures res == [] ==> s == "{}"
  {
    "{" + Members(res) + "}"
  }

  /** `checksResultsToJSON`: an opening brace, then for each entry in
      iteration order the current prefix (which becomes `,"` after the first
      entry), the name, `":` and the value, then a closing brace. */
  method ChecksResultsToJSON(res: Results) returns (json: string)
    ensures json == Json(res)
  {
    var sb := "{";
    var prefix := "\"";
    var i := 0;
    while i < |res|
      invariant 0 <= i <= |res|
      invariant sb == "{" + Members(res[..i])
      invariant prefix == if i == 0 then "\"" else ",\""
    {
      var (k, v) := res[i];
      ghost var before := sb;
      sb := sb + prefix;
      prefix := ",\"";
      sb := sb + k;
      sb := sb + "\":";
      sb := sb + BoolText(v);
      AppendEntry(before, if i == 0 then "\"" else ",\"", k, v);
      JsonStep(res, i);
      i := i + 1;
    }
    assert res[..i] == res;
    sb := sb + "}";
    json := sb;
  }

  /** The four appends of one loop step write the prefix and the entry. */
  lemma AppendEntry(sb: string, prefix: string, k: string, v: bool)
    ensures sb + prefix + k + "\":" + BoolText(v) == sb + (prefix + EntryText(k, v))
  {
  }

  /** One more entry extends the body by its prefix and its text. */
  lemma JsonStep(res: Results, i: nat)
    requires i < |res|
    ensures "{" + Members(res[..i + 1])
         == "{" + Members(res[..i]) + ((if i == 0 then "\"" else ",\"") + EntryText(res[i].0, res[i].1))
  {
    assert res[..i + 1][..i] == res[..i];
  }

  /** `res.values.all { it }`. */
  function AllSucceeded(res: Results): (b: bool)
    ensures b <==> forall i :: 0 <= i < |res| ==> res[i].1
  {
    if res == [] then true else res[0].1 && AllSucceeded(res[1..])
  }

  /** `healthCheck`: evaluate the group once, answer OK exactly when every
      check succeeded (so an empty group is OK) and InternalServerError when
      any failed, with the JSON of that same evaluation as the body. */
  method HealthCheck(fn: () -> Results) returns (status: HttpStatus, json: string)
    ensures status == OK <==> forall i :: 0 <= i < |fn()| ==> fn()[i].1
    ensures status == InternalServerError <==> exists i :: 0 <= i < |fn()| && !fn()[i].1
    ensures json == Json(fn())
  {
    var res := fn();
    var success := AllSucceeded(res);
    json := ChecksResultsToJSON(res);
    status := if success then OK else InternalServerError;
  }

  // The layout seen from the front: every entry after the first is preceded
  // by a comma.

  /** The entries after the first, each introduced by `,"`. */
  function CommaEntries(res: Results): string {
    if res == [] then "" else ",\"" + EntryText(res[0].0, res[0].1) + CommaEntries(res[1..])
  }

  lemma {:induction false} CommaEntriesSnoc(res: Results, k: string, v: bool)
    ensures CommaEntries(res + [(k, v)]) == CommaEntries(res) + (",\"" + EntryText(k, v))
  {
    if res == [] {
      assert [] + [(k, v)] == [(k, v)];
    } else {
      assert (res + [(k, v)])[1..] == res[1..] + [(k, v)];
      CommaEntriesSnoc(res[1..], k, v);
    }
  }

  /** Appending an entry after the first appends it with a comma. */
  lemma MembersSnoc(res: Results)
    requires |res| >= 2
    ensures Members(res) == Members(res[..|res| - 1])
                            + (",\"" + EntryText(res[|res| - 1].0, res[|res| - 1].1))
  {
  }

  /** For entries (k1,v1) .. (kn,vn): `{"k1":v1,"k2":v2 .. ,"kn":vn}`. */
  lemma {:induction false} MembersFromFront(res: Results)
    requires res != []
    ensures Members(res) == "\"" + EntryText(res[0].0, res[0].1) + CommaEntries(res[1..])
  {
    if |res| == 1 {
      MembersOne(res);
    } else {
      var init, last := res[..|res| - 1], res[|res| - 1];
      var c := ",\"" + EntryText(last.0, last.1);
      MembersSnoc(res);
      MembersFromFront(init);
      assert init[0] == res[0];
      assert res[1..] == init[1..] + [last];
      CommaEntriesSnoc(init[1..], last.0, last.1);
      Rejoin(Members(res), Members(init), "\"" + EntryText(res[0].0, res[0].1),
             CommaEntries(init[1..]), c, CommaEntries(res[1..]));
    }
  }

  lemma MembersOne(res: Results)
    requires |res| == 1
    ensures Members(res) == "\"" + EntryText(res[0].0, res[0].1) + CommaEntries(res[1..])
  {
    assert res[..0] == [];
    assert res[1..] == [];
  }

  /** `x = m + c`, `m = head + b` and `ce = b + c` give `x = head + ce`. */
  lemma Rejoin(x: string, m: string, head: string, b: string, c: string, ce: string)
    requires x == m + c && m == head + b && ce == b + c
    ensures x == head + ce
  {
  }

  lemma JsonShape(res: Results)
    requires res != []
    ensures Json(res) == "{\"" + EntryText(res[0].0, res[0].1) + CommaEntries(res[1..]) + "}"
  {
    MembersFromFront(res);
  }

  // Reading the body back. The names are not escaped, so this works for names
  // without a double quote; it shows that nothing else is lost.

  predicate QuoteFree(k: string) {
    forall i :: 0 <= i < |k| ==> k[i] != '"'
  }

  /** Index of the first double quote in `t` (|t| when there is none). */
  function FirstQuote(t: string): (n: nat)
    ensures n <= |t|
    ensures forall i :: 0 <= i < n ==> t[i] != '"'
    ensures n < |t| ==> t[n] == '"'
  {
    if t == [] || t[0] == '"' then 0 else 1 + FirstQuote(t[1..])
  }

  /** Reads `true` or `false` from the front of `w`. */
  function ParseBool(w: string): (r: Option<(bool, string)>)
    ensures r.Some? ==> |r.value.1| < |w|
  {
    if |w| >= 4 && w[..4] == "true" then Some((true, w[4..]))
    else if |w| >= 5 && w[..5] == "false" then Some((false, w[5..]))
    else None
  }

  /** Reads `"name":true` or `"name":false` from the front of `t`. */
  function ParseEntry(t: string): (r: Option<(string, bool, string)>)
    ensures r.Some? ==> |r.value.2| < |t|
  {
    if |t| == 0 || t[0] != '"' then None
    else
      var u := t[1..];
      var q := FirstQuote(u);
      if q + 1 >= |u| || u[q + 1] != ':' then None
      else
        match ParseBool(u[q + 2..])
        case None => None
        case Some(b) => Some((u[..q], b.0, b.1))
  }

  /** Reads `,"name":value` repeatedly until the text is used up. */
  function ParseCommaEntries(t: string): Option<Results>
    decreases |t|
  {
    if t == [] then Some([])
    else if t[0] != ',' then None
    else
      match ParseEntry(t[1..])
      case None => None
      case Some(e) =>
        match ParseCommaEntries(e.2)
        case None => None
        case Some(rest) => Some([(e.0, e.1)] + rest)
  }

  /** Reads the text between the braces: nothing, or a first entry and then
      the entries introduced by commas. */
  function ParseMembers(body: string): Option<Results> {
    if body == [] then Some([])
    else
      match ParseEntry(body)
      case None => None
      case Some(e) =>
        match ParseCommaEntries(e.2)
        case None => None
        case Some(rest) => Some([(e.0, e.1)] + rest)
  }

  /** Reads a body of the shape the serialiser writes. */
  function ParseJson(s: string): Option<Results> {
    if |s| < 2 || s[0] != '{' || s[|s| - 1] != '}' then None
    else ParseMembers(s[1..|s| - 1])
  }

  lemma ParseBoolText(v: bool, rest: string)
    ensures ParseBool(BoolText(v) + rest) == Some((v, rest))
  {
    var w := BoolText(v) + rest;
    if v {
      assert w[..4] == "true";
    } else {
      assert w[..4] != "true" by { assert w[0] == 'f'; }
      assert w[..5] == "false";
    }
  }

  lemma ParseEntryText(k: string, v: bool, rest: string)
    requires QuoteFree(k)
    ensures ParseEntry("\"" + EntryText(k, v) + rest) == Some((k, v, rest))
  {
    var t := "\"" + EntryText(k, v) + rest;
    var w := BoolText(v) + rest;
    var u := k + ("\"" + (":" + w));
    EntryAfterQuote(k, v, rest);
    assert t[0] == '"' && t[1..] == u;
    FirstQuoteAfter(k, ":" + w);
    assert u[..|k|] == k && u[|k| + 1] == ':' && u[|k| + 2..] == w;
    ParseBoolText(v, rest);
    assert ParseBool(u[|k| + 2..]) == Some((v, rest));
  }

  lemma EntryAfterQuote(k: string, v: bool, rest: string)
    ensures ("\"" + EntryText(k, v) + rest)[1..] == k + ("\"" + (":" + (BoolText(v) + rest)))
  {
  }

  /** The first quote after a quote-free name is the one that closes it. */
  lemma FirstQuoteAfter(k: string, w: string)
    requires QuoteFree(k)
    ensures FirstQuote(k + ("\"" + w)) == |k|
  {
    assert (k + ("\"" + w))[|k|] == '"';
  }

  lemma {:induction false} ParseCommaEntriesRoundTrip(res: Results)
    requires forall i :: 0 <= i < |res| ==> QuoteFree(res[i].0)
    ensures ParseCommaEntries(CommaEntries(res)) == Some(res)
  {
    if res != [] {
      var t := CommaEntries(res);
      var tail := CommaEntries(res[1..]);
      assert t[1..] == "\"" + EntryText(res[0].0, res[0].1) + tail;
      ParseEntryText(res[0].0, res[0].1, tail);
      ParseCommaEntriesRoundTrip(res[1..]);
      HeadTail(res);
    }
  }

  /** The text between the braces reads back as the entries written. */
  lemma MembersRoundTrip(res: Results)
    requires forall i :: 0 <= i < |res| ==> QuoteFree(res[i].0)
    ensures ParseMembers(Members(res)) == Some(res)
  {
    if res != [] {
      MembersFromFront(res);
      FirstThenCommaRoundTrip(res);
    }
  }

  /** A first entry followed by comma entries reads back as those entries. */
  lemma FirstThenCommaRoundTrip(res: Results)
    requires res != []
    requires forall i :: 0 <= i < |res| ==> QuoteFree(res[i].0)
    ensures ParseMembers("\"" + EntryText(res[0].0, res[0].1) + CommaEntries(res[1..])) == Some(res)
  {
    var tail := CommaEntries(res[1..]);
    ParseEntryText(res[0].0, res[0].1, tail);
    ParseCommaEntriesRoundTrip(res[1..]);
    HeadTail(res);
  }

  lemma HeadTail(res: Results)
    requires res != []
    ensures [(res[0].0, res[0].1)] + res[1..] == res
  {
  }

  /** The body round-trips: for names without a double quote, every name and
      every result can be read back, in order, from the JSON. */
  lemma JsonRoundTrip(res: Results)
    requires forall i :: 0 <= i < |res| ==> QuoteFree(res[i].0)
    ensures ParseJson(Json(res)) == Some(res)
  {
    var s := Json(res);
    assert s[1..|s| - 1] == Members(res);
    MembersRoundTrip(res);
  }
}

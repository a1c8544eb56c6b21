/**
 * `coveo_arnparse`: parsing `arn:partition:service:region:account:resource`
 * with the pattern `^arn:(.*?):(.*?):(.*?):(.*?):(.*?)$` (no flags other
 * than VERBOSE, so `.` stops at a newline and `$` also matches just before
 * a final newline), printing it back, and splitting the resource.
 */
module ArnParse {
  import opened Wrappers
  import opened Text

  /** The `Arn` dataclass. */
  datatype Arn = Arn(partition: string, service: string, region: string, account: string, resource: string)

  /** `Arn()`: partition `aws`, every other field empty. */
  const DefaultArn: Arn := Arn("aws", "", "", "", "")

  datatype ArnException = ArnException(message: string)

  /** `Arn.__str__`: the six parts joined with `:`. */
  function ToString(a: Arn): (r: string)
    ensures |r| >= 4 && r[..4] == "arn:"
  {
    Join(":", ["arn", a.partition, a.service, a.region, a.account, a.resource])
  }

  /** The groups of a match of the pattern against `body`, a text that must match all the way to its end. */
  function MatchBody(body: string): (r: Option<Arn>)
    ensures r.Some? ==> '\n' !in body && |body| >= 4 && body[..4] == "arn:"
  {
    if |body| < 4 || body[..4] != "arn:" || '\n' in body then None
    else
      var pieces := Split(body[4..], ':');
      if |pieces| < 5 then None
      else Some(Arn(pieces[0], pieces[1], pieces[2], pieces[3], Join(":", pieces[4..])))
  }

  /** The text without its final newline, if it ends with one. */
  function WithoutFinalNewline(s: string): string
  {
    if |s| > 0 && s[|s| - 1] == '\n' then s[..|s| - 1] else s
  }

  /**
   * `arnparse` as written: `$` lets one final newline follow the resource,
   * and the newline is dropped; otherwise it accepts what the fully
   * anchored parser accepts, with the same fields.
   */
  function ArnParseAsWritten(s: string): (r: Result<Arn, ArnException>)
    ensures r.Ok? ==> |s| >= 4 && s[..4] == "arn:" && '\n' !in s[..|s| - 1]
    ensures r.Ok? <==> ArnParse(WithoutFinalNewline(s)).Ok?
    ensures r.Ok? ==> r == ArnParse(WithoutFinalNewline(s))
    ensures r.Err? ==> r.error == ArnException(s + " cannot be parsed.")
  {
    var body := WithoutFinalNewline(s);
    match MatchBody(body)
    case Some(a) => Ok(a)
    case None => Err(ArnException(s + " cannot be parsed."))
  }

  /** `arnparse` as intended, the pattern anchored at the very end of the text: the whole input must match. */
  function ArnParse(s: string): (r: Result<Arn, ArnException>)
    ensures r.Ok? ==> |s| >= 4 && s[..4] == "arn:" && '\n' !in s
    ensures r.Err? ==> r.error == ArnException(s + " cannot be parsed.")
  {
    match MatchBody(s)
    case Some(a) => Ok(a)
    case None => Err(ArnException(s + " cannot be parsed."))
  }

  /** Printing a parsed ARN gives back the text it came from. */
  lemma ParsePrint(s: string)
    requires ArnParse(s).Ok?
    ensures ToString(ArnParse(s).value) == s
  {
    var pieces := Split(s[4..], ':');
    var a := ArnParse(s).value;
    JoinSplit(s[4..], ':');
    var fields := [a.partition, a.service, a.region, a.account, a.resource];
    JoinFields(fields, pieces);
    ToStringFields(a);
    assert s == "arn:" + s[4..];
  }

  /** Five fields whose last one is the join of the pieces after the fourth join like the pieces. */
  lemma JoinFields(fields: seq<string>, pieces: seq<string>)
    requires |fields| == 5 && |pieces| >= 5
    requires fields[..4] == pieces[..4] && fields[4] == Join(":", pieces[4..])
    ensures Join(":", fields) == Join(":", pieces)
  {
    JoinSplitAt(":", fields, 4);
    JoinSplitAt(":", pieces, 4);
    assert fields[4..] == [fields[4]];
  }

  /** `Join` on two or more pieces puts the separator after the first one. */
  lemma JoinCons(sep: string, parts: seq<string>)
    requires |parts| >= 2
    ensures Join(sep, parts) == parts[0] + sep + Join(sep, parts[1..])
  {
  }

  /** `ToString` is `arn:` followed by the five fields joined with `:`. */
  lemma ToStringFields(a: Arn)
    ensures ToString(a) == "arn:" + Join(":", [a.partition, a.service, a.region, a.account, a.resource])
  {
    var all := ["arn", a.partition, a.service, a.region, a.account, a.resource];
    JoinCons(":", all);
    assert all[1..] == [a.partition, a.service, a.region, a.account, a.resource];
  }

  /** An ARN whose first four fields hold no `:` and no field holds a newline parses back to itself. */
  lemma PrintParse(a: Arn)
    requires ':' !in a.partition && ':' !in a.service && ':' !in a.region && ':' !in a.account
    requires '\n' !in a.partition && '\n' !in a.service && '\n' !in a.region && '\n' !in a.account && '\n' !in a.resource
    ensures ArnParse(ToString(a)) == Ok(a)
  {
    var fields := [a.partition, a.service, a.region, a.account, a.resource];
    var rest := Split(a.resource, ':');
    var pieces := [a.partition, a.service, a.region, a.account] + rest;
    var s := ToString(a);
    assert s == "arn:" + Join(":", pieces) by {
      ToStringFields(a);
      JoinSplit(a.resource, ':');
      assert pieces[4..] == rest;
      JoinFields(fields, pieces);
    }
    assert s[4..] == Join(":", pieces);
    assert Split(s[4..], ':') == pieces by {
      SplitPiecesFree(a.resource, ':');
      SplitJoin(':', pieces);
    }
    assert pieces[4..] == rest;
    JoinSplit(a.resource, ':');
    assert '\n' !in s by {
      ToStringFields(a);
      JoinFree(":", fields, '\n');
    }
  }

  /** The two parsers agree on every text that does not end with a newline. */
  lemma AsWrittenAgrees(s: string)
    requires |s| == 0 || s[|s| - 1] != '\n'
    ensures ArnParseAsWritten(s) == ArnParse(s)
  {
  }

  /**
   * As written, a newline after a printed ARN is accepted and lost (so
   * `arn:a:b:c:d:e\n` parses to the fields `a` to `e`), and printing does
   * not give the input back; anchored at the very end, such a text is refused.
   */
  lemma AsWrittenTrailingNewline(a: Arn)
    requires ':' !in a.partition && ':' !in a.service && ':' !in a.region && ':' !in a.account
    requires '\n' !in a.partition && '\n' !in a.service && '\n' !in a.region && '\n' !in a.account && '\n' !in a.resource
    ensures ArnParseAsWritten(ToString(a) + "\n") == Ok(a)
    ensures ToString(ArnParseAsWritten(ToString(a) + "\n").value) != ToString(a) + "\n"
    ensures ArnParse(ToString(a) + "\n").Err?
  {
    var s := ToString(a) + "\n";
    PrintParse(a);
    assert s[..|s| - 1] == ToString(a);
    assert s[|s| - 1] == '\n';
    assert '\n' in s;
  }

  /** The resource keeps every colon after the fifth, and empty fields are accepted. */
  lemma ResourceKeepsColons(resource: string)
    requires '\n' !in resource
    ensures ArnParse("arn:::::" + resource) == Ok(Arn("", "", "", "", resource))
  {
    var a := Arn("", "", "", "", resource);
    PrintParse(a);
    var all := ["arn", "", "", "", "", resource];
    JoinSplitAt(":", all, 5);
    assert all[5..] == [resource];
    assert Join(":", all[..5]) == "arn::::" by {
      var e := ["", "", "", ""];
      assert all[..5] == ["arn"] + e;
      assert e[1..] == ["", ""] + [""];
      assert Join(":", [""]) == "";
      assert Join(":", ["", ""]) == ":" by { assert ["", ""][1..] == [""]; }
      assert Join(":", ["", ""] + [""]) == "::" by { assert (["", ""] + [""])[1..] == ["", ""]; }
      assert Join(":", e) == ":::";
      assert (["arn"] + e)[1..] == e;
    }
    assert ToString(a) == "arn::::" + ":" + resource;
    assert "arn::::" + ":" + resource == "arn:::::" + resource;
  }

  // ------------------------------------------------------------ resource type and id

  /** Position of the first `:` or `/`. */
  function FirstSplit(resource: string): (r: Option<nat>)
    ensures r.Some? ==> r.value < |resource| && resource[r.value] in ":/"
                        && forall i :: 0 <= i < r.value ==> resource[i] !in ":/"
    ensures r.None? ==> forall i :: 0 <= i < |resource| ==> resource[i] !in ":/"
    decreases |resource|
  {
    if |resource| == 0 then None
    else if resource[0] in ":/" then Some(0)
    else
      var rest := FirstSplit(resource[1..]);
      if rest.Some? then Some(rest.value + 1) else None
  }

  /** `_split_resource_type_and_id`: split once at the first `:` or `/`, or two empty strings without one. */
  function SplitResource(resource: string): (r: (string, string))
    ensures FirstSplit(resource).None? ==> r == ("", "")
    ensures FirstSplit(resource).Some? ==>
              r.0 + [resource[FirstSplit(resource).value]] + r.1 == resource
              && (forall i :: 0 <= i < |r.0| ==> r.0[i] !in ":/")
  {
    match FirstSplit(resource)
    case None => ("", "")
    case Some(k) =>
      assert resource[..k] + [resource[k]] + resource[k + 1..] == resource;
      (resource[..k], resource[k + 1..])
  }

  /** `Arn.resource_type`: the part before the separator. */
  function ResourceType(a: Arn): (r: string)
    ensures |r| <= |a.resource| && r == a.resource[..|r|]
    ensures forall i :: 0 <= i < |r| ==> r[i] !in ":/"
  {
    SplitResource(a.resource).0
  }

  /** `Arn.resource_id`: the part after the separator. */
  function ResourceId(a: Arn): (r: string)
    ensures r == "" || (|r| < |a.resource| && r == a.resource[|a.resource| - |r|..])
  {
    SplitResource(a.resource).1
  }

  /** Type, separator and id put back together give the resource. */
  lemma ResourceParts(a: Arn)
    ensures FirstSplit(a.resource).Some? ==>
              ResourceType(a) + [a.resource[|ResourceType(a)|]] + ResourceId(a) == a.resource
    ensures FirstSplit(a.resource).None? ==> ResourceType(a) == "" && ResourceId(a) == ""
  {
  }

  /** Only the first separator splits: the id keeps any later `:` or `/`. */
  lemma SplitOnce(t: string, sep: char, id: string)
    requires sep in ":/" && forall i :: 0 <= i < |t| ==> t[i] !in ":/"
    ensures SplitResource(t + [sep] + id) == (t, id)
  {
    var resource := t + [sep] + id;
    assert resource[|t|] == sep;
    assert forall i :: 0 <= i < |t| ==> resource[i] == t[i];
    assert resource[..|t|] == t;
    assert resource[|t| + 1..] == id;
  }
}

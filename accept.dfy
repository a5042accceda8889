/**
 * The simplified Accept negotiation of pkg/gohandlr/gohandlr.go, which
 * examples/openapi/output.go repeats word for word: the header is split at
 * commas and each piece trimmed, and a media type is accepted when some piece
 * starts with it.  Quality values, parameters and wildcards other than a bare
 * "*" + "/" + "*" header (section 12.5.1 of RFC 9110) are not interpreted.
 */
module Accept {
  import opened GoText
  import Http

  /** The header after the default: "" and the bare wildcard become "application/json". */
  function Effective(header: string): string
  {
    if header == "" || header == "*/*" then Http.MimeJson else header
  }

  /** What parseAcceptHeader returns: the trimmed comma-separated pieces of the effective header. */
  function AcceptList(header: string): (list: seq<string>)
    ensures |list| == |Split(Effective(header), ',')|
    ensures forall i :: 0 <= i < |list| ==> list[i] == TrimSpace(Split(Effective(header), ',')[i])
  {
    var parts := Split(Effective(header), ',');
    seq(|parts|, i requires 0 <= i < |parts| => TrimSpace(parts[i]))
  }

  /** What acceptsType returns: some entry has mimeType as a prefix (equality included). */
  predicate Accepts(list: seq<string>, mimeType: string)
  {
    exists i :: 0 <= i < |list| && mimeType <= list[i]
  }

  /**
   * The list is never empty: it has one entry more than the effective header
   * has commas.  No entry has a comma or surrounding white space.
   */
  lemma AcceptListShape(header: string)
    ensures |AcceptList(header)| == CountChar(Effective(header), ',') + 1 >= 1
    ensures forall i :: 0 <= i < |AcceptList(header)| ==>
      ',' !in AcceptList(header)[i]
      && (AcceptList(header)[i] == [] || (!IsSpace(AcceptList(header)[i][0])
          && !IsSpace(AcceptList(header)[i][|AcceptList(header)[i]| - 1])))
  {
    var parts := Split(Effective(header), ',');
    forall i | 0 <= i < |parts| ensures ',' !in TrimSpace(parts[i]) {
      TrimSpaceIsInfix(parts[i]);
    }
  }

  /** The pieces of TrimSpace(s) are pieces of s. */
  lemma TrimSpaceIsInfix(s: string)
    ensures forall c :: c in TrimSpace(s) ==> c in s
  {
    TrimSpaceSlice(s);
  }

  lemma TrimSpaceSlice(s: string)
    ensures exists a, b :: 0 <= a <= b <= |s| && TrimSpace(s) == s[a..b]
  {
    var a := LeadingSpace(s);
    var b := |s| - TrailingSpace(s[a..]);
    assert TrimSpace(s) == s[a..b];
  }

  /** A missing or bare-wildcard header means exactly JSON. */
  lemma AcceptListDefault(header: string)
    requires header == "" || header == "*/*"
    ensures AcceptList(header) == [Http.MimeJson]
  {
    JsonPlain(Http.MimeJson);
    AcceptListSingle(header, Http.MimeJson);
  }

  /** A header whose effective value has no comma and no surrounding space is a one-entry list. */
  lemma AcceptListSingle(header: string, m: string)
    requires Effective(header) == m && ',' !in m
    requires m != [] ==> !IsSpace(m[0]) && !IsSpace(m[|m| - 1])
    ensures AcceptList(header) == [m]
  {
    SplitNoSeparator(m, ',');
    TrimSpaceKeepsTrimmed(m);
  }

  lemma JsonPlain(m: string)
    requires m == Http.MimeJson
    ensures ',' !in m && m != [] && !IsSpace(m[0]) && !IsSpace(m[|m| - 1])
  {
  }

  /** An empty list accepts nothing; an exact entry and any prefix of an entry are accepted. */
  lemma AcceptsFacts(list: seq<string>, mimeType: string)
    ensures list == [] ==> !Accepts(list, mimeType)
    ensures mimeType in list ==> Accepts(list, mimeType)
    ensures Accepts(list, "")  <==> list != []
  {
    if mimeType in list {
      var i :| 0 <= i < |list| && list[i] == mimeType;
      assert mimeType <= list[i];
    }
    if list != [] {
      assert "" <= list[0];
    }
  }

  /** The default list accepts JSON, and anything JSON starts with, but not HTML. */
  lemma DefaultAccepts(header: string)
    requires header == "" || header == "*/*"
    ensures Accepts(AcceptList(header), Http.MimeJson)
    ensures !Accepts(AcceptList(header), Http.MimeHtml)
    ensures Accepts(AcceptList(header), "application/")
  {
    AcceptListDefault(header);
    AcceptsJsonOnly(AcceptList(header));
  }

  lemma AcceptsJsonOnly(list: seq<string>)
    requires list == [Http.MimeJson]
    ensures Accepts(list, Http.MimeJson) && Accepts(list, "application/") && !Accepts(list, Http.MimeHtml)
  {
    assert Http.MimeJson <= list[0];
    assert "application/" <= list[0];
    assert !(Http.MimeHtml <= list[0]) by { assert Http.MimeHtml[0] != list[0][0]; }
  }

  /** parseAcceptHeader: Split, then TrimSpace of each piece in place. */
  method ParseAcceptHeader(header: string) returns (parts: seq<string>)
    ensures parts == AcceptList(header)
  {
    var h := Effective(header);   // "" and the bare wildcard become JSON
    var split := Split(h, ',');
    parts := TrimEach(split);
    TrimmedPieces(header, h, split, parts);
  }

  /** The loop of parseAcceptHeader: each piece of an array trimmed in place. */
  method TrimEach(split: seq<string>) returns (parts: seq<string>)
    ensures |parts| == |split|
    ensures forall j :: 0 <= j < |parts| ==> parts[j] == TrimSpace(split[j])
  {
    var a := new string[|split|];
    forall k | 0 <= k < a.Length {
      a[k] := split[k];
    }
    var i := 0;
    while i < a.Length
      invariant 0 <= i <= a.Length == |split|
      invariant forall j :: 0 <= j < i ==> a[j] == TrimSpace(split[j])
      invariant forall j :: i <= j < a.Length ==> a[j] == split[j]
    {
      a[i] := TrimSpace(a[i]);
      i := i + 1;
    }
    parts := a[..];
  }

  lemma TrimmedPieces(header: string, h: string, split: seq<string>, parts: seq<string>)
    requires h == Effective(header) && split == Split(h, ',')
    requires |parts| == |split| && forall j :: 0 <= j < |parts| ==> parts[j] == TrimSpace(split[j])
    ensures parts == AcceptList(header)
  {
  }

  /** acceptsType: a search loop for an entry equal to or starting with mimeType. */
  method AcceptsType(acceptedTypes: seq<string>, mimeType: string) returns (found: bool)
    ensures found <==> Accepts(acceptedTypes, mimeType)
  {
    var k := 0;
    while k < |acceptedTypes|
      invariant 0 <= k <= |acceptedTypes|
      invariant forall j :: 0 <= j < k ==> !(mimeType <= acceptedTypes[j])
    {
      var t := acceptedTypes[k];
      if t == mimeType || mimeType <= t {
        return true;
      }
      k := k + 1;
    }
    return false;
  }
}

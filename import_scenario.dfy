/** The request body of a GitHub import: a slug that is stripped of surrounding whitespace and must
    then be one or more ASCII letters or hyphens, and a URL. */
module ImportRequests {
  import opened Wrappers
  import opened Text
  import Scenarios

  datatype ImportRequest = ImportRequest(slug: string, url: Scenarios.Url)

  /** One character of `[A-Za-z-]`. */
  predicate IsSlugChar(c: char) {
    'A' <= c <= 'Z' || 'a' <= c <= 'z' || c == '-'
  }

  predicate IsSlug(s: string) {
    s != [] && forall i :: 0 <= i < |s| ==> IsSlugChar(s[i])
  }

  /** The slug field's validation: strip whitespace, then match the whole text against
      `^[A-Za-z-]+$`; the stored value is the stripped text. */
  function ValidateSlug(raw: string): (r: Option<string>)
    ensures r.Some? <==> IsSlug(Trim(raw, IsUnicodeWhiteSpace))
    ensures r.Some? ==> r.value == Trim(raw, IsUnicodeWhiteSpace)
  {
    var s := Trim(raw, IsUnicodeWhiteSpace);
    if IsSlug(s) then Some(s) else None
  }

  /** The request as a whole: rejected exactly when the slug is. */
  function ParseImportRequest(rawSlug: string, url: Scenarios.Url): (r: Option<ImportRequest>)
    ensures r.Some? <==> ValidateSlug(rawSlug).Some?
    ensures r.Some? ==> IsSlug(r.value.slug) && r.value.url == url
  {
    match ValidateSlug(rawSlug)
    case None => None
    case Some(slug) => Some(ImportRequest(slug, url))
  }

  /** A slug padded with whitespace on either side is accepted as the bare slug. */
  lemma PaddedSlugIsAccepted(left: string, slug: string, right: string)
    requires AllOf(left, IsUnicodeWhiteSpace) && AllOf(right, IsUnicodeWhiteSpace)
    requires IsSlug(slug)
    ensures ValidateSlug(left + slug + right) == Some(slug)
  {
    assert !IsUnicodeWhiteSpace(slug[0]) && !IsUnicodeWhiteSpace(slug[|slug| - 1]);
    TrimPadded(left, slug, right, IsUnicodeWhiteSpace);
  }

  /** Validation is idempotent: an accepted slug is accepted again unchanged. */
  lemma ValidateSlugIdempotent(raw: string)
    requires ValidateSlug(raw).Some?
    ensures ValidateSlug(ValidateSlug(raw).value) == ValidateSlug(raw)
  {
    var slug := ValidateSlug(raw).value;
    PaddedSlugIsAccepted([], slug, []);
    assert [] + slug + [] == slug;
  }

  /** A character outside `[A-Za-z-]` rejects the slug once it lies between two characters
      that are not whitespace (possibly itself): a digit, an underscore or a dot anywhere, or a
      space inside the text. */
  lemma ForeignCharacterRejects(raw: string, i: nat, k: nat, j: nat)
    requires i <= k <= j < |raw|
    requires !IsUnicodeWhiteSpace(raw[i]) && !IsUnicodeWhiteSpace(raw[j]) && !IsSlugChar(raw[k])
    ensures ValidateSlug(raw) == None
  {
    TrimIsSlice(raw, IsUnicodeWhiteSpace);
    var a, b :| 0 <= a <= b <= |raw| && Trim(raw, IsUnicodeWhiteSpace) == raw[a..b]
      && (forall x :: 0 <= x < a ==> IsUnicodeWhiteSpace(raw[x]))
      && (forall x :: b <= x < |raw| ==> IsUnicodeWhiteSpace(raw[x]));
    assert a <= i && j < b;
    assert Trim(raw, IsUnicodeWhiteSpace)[k - a] == raw[k];
  }

  /** A text that is only whitespace is rejected. */
  lemma BlankSlugRejected(raw: string)
    requires AllOf(raw, IsUnicodeWhiteSpace)
    ensures ValidateSlug(raw) == None
  {
    TrimEmptyIffAll(raw, IsUnicodeWhiteSpace);
  }

  lemma AcceptedExample()
    ensures ValidateSlug(" " + "sql-db" + "\n") == Some("sql-db")
  {
    assert IsSlug("sql-db");
    assert AllOf(" ", IsUnicodeWhiteSpace) && AllOf("\n", IsUnicodeWhiteSpace);
    PaddedSlugIsAccepted(" ", "sql-db", "\n");
  }

  lemma RejectedExamples()
    ensures ValidateSlug("sql_1") == None
    ensures ValidateSlug("sql db") == None
  {
    ForeignCharacterRejects("sql_1", 3, 3, 3);
    ForeignCharacterRejects("sql db", 2, 3, 4);
  }
}

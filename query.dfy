/** The check every chat message goes through before the agent sees it
    (`check_valid_query`, utils/utility_functions.py): the progress marker the
    interface may leave in the box is removed, the text is stripped, and it
    is refused when nothing is left, when it has no letter or digit, or when
    it is a single character. */
module Query {
  import opened Text

  /** The placeholder the chat interface shows while it waits. */
  const Marker: string := "Processing your request..."

  const EmptyMessage: string := "Please enter a query"
  const NoTextMessage: string := "Please enter a valid query with actual text"
  const TooShortMessage: string := "Please enter a more detailed query"

  /** `str.isalnum()` on ASCII: a letter or a digit. */
  predicate IsAlnum(c: char) {
    ('a' <= c <= 'z') || ('A' <= c <= 'Z') || ('0' <= c <= '9')
  }

  /** `any(c.isalnum() for c in s)`. */
  predicate HasAlnum(s: string) {
    exists i :: 0 <= i < |s| && IsAlnum(s[i])
  }

  /** The accepted query, or the message of the `ValueError` raised. */
  datatype QueryResult = Valid(query: string) | Invalid(message: string)

  /** The text without the marker, before stripping. */
  function Unmarked(query: string): string {
    RemoveAll(query, Marker)
  }

  /** The three refusals, tested in this order, are: only whitespace is left
      once the marker is gone; no letter or digit is left; a single
      character is left. Anything else is accepted in its stripped form. */
  function CheckValidQuery(query: string): (r: QueryResult)
    ensures r == Invalid(EmptyMessage) <==> AllSpace(Unmarked(query))
    ensures r == Invalid(NoTextMessage) <==> !AllSpace(Unmarked(query)) && !HasAlnum(Unmarked(query))
    ensures r == Invalid(TooShortMessage) <==> HasAlnum(Unmarked(query)) && |Strip(Unmarked(query))| < 2
    ensures r.Valid? <==> HasAlnum(Unmarked(query)) && |Strip(Unmarked(query))| >= 2
    ensures r.Valid? ==> r.query == Strip(Unmarked(query)) && HasAlnum(r.query)
  {
    var cleaned := Strip(Unmarked(query));
    StripEmptyIffAllSpace(Unmarked(query));
    HasAlnumStrip(Unmarked(query));
    if cleaned == [] then Invalid(EmptyMessage)
    else if !HasAlnum(cleaned) then Invalid(NoTextMessage)
    else if |cleaned| < 2 then Invalid(TooShortMessage)
    else Valid(cleaned)
  }

  /** Letters and digits are not whitespace, so stripping keeps them all. */
  lemma HasAlnumStrip(s: string)
    ensures HasAlnum(Strip(s)) <==> HasAlnum(s)
    ensures !AllSpace(s) || !HasAlnum(s)
  {
    if HasAlnum(s) {
      var i :| 0 <= i < |s| && IsAlnum(s[i]);
      StripKeepsVisible(s, s[i]);
      var j :| 0 <= j < |Strip(s)| && Strip(s)[j] == s[i];
      assert IsAlnum(Strip(s)[j]);
    }
    if HasAlnum(Strip(s)) {
      var j :| 0 <= j < |Strip(s)| && IsAlnum(Strip(s)[j]);
      StripKeepsVisible(s, Strip(s)[j]);
      var i :| 0 <= i < |s| && s[i] == Strip(s)[j];
      assert IsAlnum(s[i]);
    }
  }

  /** The "more detailed" refusal is for exactly one letter or digit, possibly
      surrounded by whitespace and markers. */
  lemma TooShortIsOneCharacter(query: string)
    ensures CheckValidQuery(query) == Invalid(TooShortMessage) <==>
      |Strip(Unmarked(query))| == 1 && IsAlnum(Strip(Unmarked(query))[0])
  {
    var cleaned := Strip(Unmarked(query));
    var r := CheckValidQuery(query);
    HasAlnumStrip(Unmarked(query));
    if |cleaned| == 1 && IsAlnum(cleaned[0]) {
      assert HasAlnum(cleaned);
      assert r == Invalid(TooShortMessage);
    }
    if r == Invalid(TooShortMessage) {
      assert HasAlnum(cleaned) && |cleaned| < 2;
      var i :| 0 <= i < |cleaned| && IsAlnum(cleaned[i]);
      assert i == 0;
    }
  }

  /** An accepted query is accepted again unchanged, provided it does not
      itself spell out the marker (removal is a single left-to-right pass,
      so a marker can be assembled from the pieces around a removed one). */
  lemma RevalidationKeepsQuery(query: string)
    requires CheckValidQuery(query).Valid?
    requires !Contains(CheckValidQuery(query).query, Marker)
    ensures CheckValidQuery(CheckValidQuery(query).query) == CheckValidQuery(query)
  {
    var q := CheckValidQuery(query).query;
    RemoveAllAbsent(q, Marker);
    StripIdempotent(Unmarked(query));
  }

  /** The marker alone, with whitespace around it, counts as an empty query. */
  lemma MarkerAloneIsEmpty()
    ensures CheckValidQuery(" " + Marker + "\n") == Invalid(EmptyMessage)
  {
    var s := " " + Marker + "\n";
    assert s[1..][..|Marker|] == Marker;
    assert RemoveAll(s[1..], Marker) == RemoveAll("\n", Marker);
    assert RemoveAll("\n", Marker) == "\n";
    assert Unmarked(s) == " \n";
  }
}

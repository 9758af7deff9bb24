/** How the agent's answer is laid out for the chat window
    (`format_response` and `create_card`, utils/utility_functions.py). The
    answer is read line by line; a line that names a section ("Route
    Summary", "Weather Conditions", ...) switches the section the following
    lines go to. Each named section that is not blank becomes a card, and an
    answer with no such section is shown as plain text instead. The HTML
    around the cards is not modelled: a card is its title, colours and body. */
module Format {
  import opened Common
  import opened Text
  import opened Markup

  datatype Section = RouteSection | MultiRouteSection | WeatherSection | TrafficSection | CostSection | OtherSection

  const AllSections: set<Section> :=
    {RouteSection, MultiRouteSection, WeatherSection, TrafficSection, CostSection, OtherSection}

  /** The section a heading line opens, if it is one. The tests run on the
      upper-cased line, in this order, and the first that passes wins. */
  function Header(line: string): (r: Option<Section>)
    ensures r != Some(OtherSection)
  {
    var u := Upper(line);
    if Contains(u, "OPTIMAL MULTI-ROUTE") || Contains(u, "MULTI-DESTINATION") then Some(MultiRouteSection)
    else if Contains(u, "ROUTE") && (Contains(u, "SUMMARY") || Contains(u, "ANALYSIS")) then Some(RouteSection)
    else if Contains(u, "WEATHER") && (Contains(u, "CONDITION") || Contains(u, "ANALYSIS")) then Some(WeatherSection)
    else if Contains(u, "TRAFFIC") && Contains(u, "ANALYSIS") then Some(TrafficSection)
    else if Contains(u, "COST") && (Contains(u, "ESTIMATE") || Contains(u, "BREAKDOWN")) then Some(CostSection)
    else None
  }

  /** Headings are recognised whatever their letter case. */
  lemma HeaderIgnoresCase(line: string)
    ensures Header(Upper(line)) == Header(line)
  {
    UpperIdempotent(line);
  }

  /** A line opens the multi-route section exactly when it mentions an
      optimal multi-route or a multi-destination plan, whatever else it says. */
  lemma MultiRouteComesFirst(line: string)
    ensures Header(line) == Some(MultiRouteSection) <==>
      Contains(Upper(line), "OPTIMAL MULTI-ROUTE") || Contains(Upper(line), "MULTI-DESTINATION")
  {
  }

  /** Without a multi-route marker, a line naming a route summary or analysis
      opens the route section, even when it also names the weather, the
      traffic or the cost. */
  lemma RouteHeadingWins(line: string)
    requires !Contains(Upper(line), "OPTIMAL MULTI-ROUTE") && !Contains(Upper(line), "MULTI-DESTINATION")
    requires Contains(Upper(line), "ROUTE")
    requires Contains(Upper(line), "SUMMARY") || Contains(Upper(line), "ANALYSIS")
    ensures Header(line) == Some(RouteSection)
  {
  }

  /** A weather heading that is not a route heading opens the weather
      section, even when it also names the traffic or the cost. */
  lemma WeatherBeforeTraffic(line: string)
    requires !Contains(Upper(line), "OPTIMAL MULTI-ROUTE") && !Contains(Upper(line), "MULTI-DESTINATION")
    requires !(Contains(Upper(line), "ROUTE") && (Contains(Upper(line), "SUMMARY") || Contains(Upper(line), "ANALYSIS")))
    requires Contains(Upper(line), "WEATHER")
    requires Contains(Upper(line), "CONDITION") || Contains(Upper(line), "ANALYSIS")
    ensures Header(line) == Some(WeatherSection)
  {
  }

  /** A traffic analysis heading that is neither a route nor a weather
      heading opens the traffic section, even when it also names the cost. */
  lemma TrafficBeforeCost(line: string)
    requires !Contains(Upper(line), "OPTIMAL MULTI-ROUTE") && !Contains(Upper(line), "MULTI-DESTINATION")
    requires !(Contains(Upper(line), "ROUTE") && (Contains(Upper(line), "SUMMARY") || Contains(Upper(line), "ANALYSIS")))
    requires !(Contains(Upper(line), "WEATHER") && (Contains(Upper(line), "CONDITION") || Contains(Upper(line), "ANALYSIS")))
    requires Contains(Upper(line), "TRAFFIC") && Contains(Upper(line), "ANALYSIS")
    ensures Header(line) == Some(TrafficSection)
  {
  }

  /** A cost estimate or breakdown heading that no earlier test claims opens
      the cost section. */
  lemma CostHeading(line: string)
    requires !Contains(Upper(line), "OPTIMAL MULTI-ROUTE") && !Contains(Upper(line), "MULTI-DESTINATION")
    requires !(Contains(Upper(line), "ROUTE") && (Contains(Upper(line), "SUMMARY") || Contains(Upper(line), "ANALYSIS")))
    requires !(Contains(Upper(line), "WEATHER") && (Contains(Upper(line), "CONDITION") || Contains(Upper(line), "ANALYSIS")))
    requires !(Contains(Upper(line), "TRAFFIC") && Contains(Upper(line), "ANALYSIS"))
    requires Contains(Upper(line), "COST")
    requires Contains(Upper(line), "ESTIMATE") || Contains(Upper(line), "BREAKDOWN")
    ensures Header(line) == Some(CostSection)
  {
  }

  /** A line with none of the heading words is body text. */
  lemma PlainLineIsBody(line: string)
    requires !Contains(Upper(line), "OPTIMAL MULTI-ROUTE") && !Contains(Upper(line), "MULTI-DESTINATION")
    requires !Contains(Upper(line), "ROUTE") && !Contains(Upper(line), "WEATHER")
    requires !Contains(Upper(line), "TRAFFIC") && !Contains(Upper(line), "COST")
    ensures Header(line).None?
  {
  }

  /** Both multi-route markers hold a hyphen, so a line without one never
      opens the multi-route section. */
  lemma NoHyphenNoMultiRoute(line: string)
    requires '-' !in line
    ensures Header(line) != Some(MultiRouteSection)
  {
    forall i | 0 <= i < |line| ensures Upper(line)[i] != '-' {
    }
    Absent(Upper(line), "OPTIMAL MULTI-ROUTE", 13);
    Absent(Upper(line), "MULTI-DESTINATION", 5);
  }

  /** The heading of the multi-destination report opens the multi-route section. */
  lemma MultiRouteReportHeading(line: string)
    requires line == "OPTIMAL MULTI-ROUTE PLAN"
    ensures Header(line) == Some(MultiRouteSection)
  {
    UpperKeepsCapitals(line);
    ContainsAt(line, "OPTIMAL MULTI-ROUTE", 0);
  }

  /** The traffic report's heading opens the traffic section. */
  lemma TrafficReportHeading(line: string)
    requires line == "TRAFFIC ANALYSIS"
    ensures Header(line) == Some(TrafficSection)
  {
    NoHyphenNoMultiRoute(line);
    TrafficReportLetters(line);
    AbsentFromUpper(line, "ROUTE", 1);
    AbsentFromUpper(line, "WEATHER", 0);
    TrafficReportWords(line);
    TrafficBeforeCost(line);
  }

  lemma TrafficReportLetters(line: string)
    requires line == "TRAFFIC ANALYSIS"
    ensures 'O' !in line && 'o' !in line && 'W' !in line && 'w' !in line
  {
  }

  lemma TrafficReportWords(line: string)
    requires line == "TRAFFIC ANALYSIS"
    ensures Contains(Upper(line), "TRAFFIC") && Contains(Upper(line), "ANALYSIS")
  {
    ContainsAt(Upper(line), "TRAFFIC", 0);
    ContainsAt(Upper(line), "ANALYSIS", 8);
  }

  /** The cost report's heading opens the cost section. */
  lemma CostReportHeading(line: string)
    requires line == "COST ESTIMATE"
    ensures Header(line) == Some(CostSection)
  {
    NoHyphenNoMultiRoute(line);
    CostReportLetters(line);
    AbsentFromUpper(line, "ROUTE", 0);
    AbsentFromUpper(line, "WEATHER", 0);
    AbsentFromUpper(line, "TRAFFIC", 3);
    CostReportWords(line);
    CostHeading(line);
  }

  lemma CostReportLetters(line: string)
    requires line == "COST ESTIMATE"
    ensures 'R' !in line && 'r' !in line && 'W' !in line && 'w' !in line && 'F' !in line && 'f' !in line
  {
  }

  lemma CostReportWords(line: string)
    requires line == "COST ESTIMATE"
    ensures Contains(Upper(line), "COST") && Contains(Upper(line), "ESTIMATE")
  {
    ContainsAt(Upper(line), "COST", 0);
    ContainsAt(Upper(line), "ESTIMATE", 5);
  }

  /** A route analysis that also names the traffic is a route heading. */
  lemma RouteTrafficHeading(line: string)
    requires line == "ROUTE TRAFFIC ANALYSIS"
    ensures Header(line) == Some(RouteSection)
  {
    NoHyphenNoMultiRoute(line);
    RouteTrafficWords(line);
    RouteHeadingWins(line);
  }

  lemma RouteTrafficWords(line: string)
    requires line == "ROUTE TRAFFIC ANALYSIS"
    ensures Contains(Upper(line), "ROUTE") && Contains(Upper(line), "ANALYSIS")
  {
    ContainsAt(Upper(line), "ROUTE", 0);
    ContainsAt(Upper(line), "ANALYSIS", 14);
  }

  /** A weather analysis that mentions the route is a route heading. */
  lemma WeatherForRouteHeading(line: string)
    requires line == "WEATHER ANALYSIS FOR ROUTE"
    ensures Header(line) == Some(RouteSection)
  {
    NoHyphenNoMultiRoute(line);
    WeatherForRouteWords(line);
    RouteHeadingWins(line);
  }

  lemma WeatherForRouteWords(line: string)
    requires line == "WEATHER ANALYSIS FOR ROUTE"
    ensures Contains(Upper(line), "ROUTE") && Contains(Upper(line), "ANALYSIS")
  {
    ContainsAt(Upper(line), "ROUTE", 21);
    ContainsAt(Upper(line), "ANALYSIS", 8);
  }

  /** A weather heading that mentions the route without a summary or an
      analysis stays a weather heading. */
  lemma WeatherConditionsOnRouteHeading(line: string)
    requires line == "WEATHER CONDITIONS ON ROUTE"
    ensures Header(line) == Some(WeatherSection)
  {
    NoHyphenNoMultiRoute(line);
    WeatherConditionsOnRouteLetters(line);
    AbsentFromUpper(line, "SUMMARY", 6);
    AbsentFromUpper(line, "ANALYSIS", 4);
    WeatherConditionsOnRouteWords(line);
    WeatherBeforeTraffic(line);
  }

  lemma WeatherConditionsOnRouteLetters(line: string)
    requires line == "WEATHER CONDITIONS ON ROUTE"
    ensures 'Y' !in line && 'y' !in line
  {
  }

  lemma WeatherConditionsOnRouteWords(line: string)
    requires line == "WEATHER CONDITIONS ON ROUTE"
    ensures Contains(Upper(line), "WEATHER") && Contains(Upper(line), "CONDITION")
  {
    ContainsAt(Upper(line), "WEATHER", 0);
    ContainsAt(Upper(line), "CONDITION", 8);
  }

  /** A heading naming both the traffic and the weather is a weather heading. */
  lemma TrafficAndWeatherHeading(line: string)
    requires line == "TRAFFIC AND WEATHER ANALYSIS"
    ensures Header(line) == Some(WeatherSection)
  {
    NoHyphenNoMultiRoute(line);
    TrafficAndWeatherLetters(line);
    AbsentFromUpper(line, "ROUTE", 1);
    TrafficAndWeatherWords(line);
    WeatherBeforeTraffic(line);
  }

  lemma TrafficAndWeatherLetters(line: string)
    requires line == "TRAFFIC AND WEATHER ANALYSIS"
    ensures 'O' !in line && 'o' !in line
  {
  }

  lemma TrafficAndWeatherWords(line: string)
    requires line == "TRAFFIC AND WEATHER ANALYSIS"
    ensures Contains(Upper(line), "WEATHER") && Contains(Upper(line), "ANALYSIS")
  {
    ContainsAt(Upper(line), "WEATHER", 12);
    ContainsAt(Upper(line), "ANALYSIS", 20);
  }

  /** A pattern with a character the text lacks does not occur in it. */
  lemma Absent(s: string, p: string, k: nat)
    requires k < |p| && p[k] !in s
    ensures !Contains(s, p)
  {
    if Contains(s, p) {
      ContainsHasChars(s, p, k);
    }
  }

  /** A pattern with a capital letter that the line holds in neither case
      does not occur in the upper-cased line. */
  lemma AbsentFromUpper(line: string, p: string, k: nat)
    requires k < |p| && 'A' <= p[k] <= 'Z'
    requires p[k] !in line && (p[k] as int + 32) as char !in line
    ensures !Contains(Upper(line), p)
  {
    forall i | 0 <= i < |line| ensures Upper(line)[i] != p[k] {
    }
    Absent(Upper(line), p, k);
  }

  /** The section the lines after `lines` go to: the last heading's, or the
      catch-all section before any heading. */
  function LastHeader(lines: seq<string>): (r: Section)
  {
    if lines == [] then OtherSection
    else
      var h := Header(lines[|lines| - 1]);
      if h.Some? then h.value else LastHeader(lines[..|lines| - 1])
  }

  /** The text a section has gathered from `lines`: each line that is not a
      heading, followed by a newline, in the section open at that point. */
  function Collected(lines: seq<string>, s: Section): string
  {
    if lines == [] then ""
    else
      var prefix := lines[..|lines| - 1];
      var line := lines[|lines| - 1];
      Collected(prefix, s) + (if Header(line).None? && LastHeader(prefix) == s then line + "\n" else "")
  }

  /** Every section with what it gathered from `lines`. */
  function SectionsOf(lines: seq<string>): (m: map<Section, string>)
    ensures m.Keys == AllSections
    ensures forall s :: s in m ==> m[s] == Collected(lines, s)
  {
    map s | s in AllSections :: Collected(lines, s)
  }

  /** The body length of the lines that are not headings, a newline each. */
  function BodyLength(lines: seq<string>): nat {
    if lines == [] then 0
    else
      var line := lines[|lines| - 1];
      BodyLength(lines[..|lines| - 1]) + (if Header(line).None? then |line| + 1 else 0)
  }

  /** What all sections gathered together, in length. */
  function GatheredLength(lines: seq<string>): nat {
    |Collected(lines, RouteSection)| + |Collected(lines, MultiRouteSection)|
    + |Collected(lines, WeatherSection)| + |Collected(lines, TrafficSection)|
    + |Collected(lines, CostSection)| + |Collected(lines, OtherSection)|
  }

  /** No line is lost or counted twice: the sections together hold exactly
      the lines that are not headings. */
  lemma {:induction false} EveryBodyLineKeptOnce(lines: seq<string>)
    ensures GatheredLength(lines) == BodyLength(lines)
    decreases |lines|
  {
    if lines != [] {
      EveryBodyLineKeptOnce(lines[..|lines| - 1]);
    }
  }

  /** Before the first heading every line belongs to the catch-all section. */
  lemma {:induction false} WithoutHeadingsAllIsOther(lines: seq<string>)
    requires forall i :: 0 <= i < |lines| ==> Header(lines[i]).None?
    ensures LastHeader(lines) == OtherSection
    ensures forall s :: s != OtherSection ==> Collected(lines, s) == ""
    decreases |lines|
  {
    if lines != [] {
      var prefix := lines[..|lines| - 1];
      assert forall i :: 0 <= i < |prefix| ==> prefix[i] == lines[i];
      WithoutHeadingsAllIsOther(prefix);
    }
  }

  /** What one more line does to the sections. */
  lemma SectionsSnoc(lines: seq<string>, line: string)
    ensures LastHeader(lines + [line]) == (if Header(line).Some? then Header(line).value else LastHeader(lines))
    ensures SectionsOf(lines + [line]) ==
      if Header(line).Some? then SectionsOf(lines)
      else SectionsOf(lines)[LastHeader(lines) := SectionsOf(lines)[LastHeader(lines)] + line + "\n"]
  {
    var all := lines + [line];
    assert all[..|all| - 1] == lines;
    assert all[|all| - 1] == line;
    var expected := if Header(line).Some? then SectionsOf(lines)
      else SectionsOf(lines)[LastHeader(lines) := SectionsOf(lines)[LastHeader(lines)] + line + "\n"];
    assert expected.Keys == AllSections;
    forall s | s in AllSections ensures SectionsOf(all)[s] == expected[s] {
      assert Collected(all, s) == Collected(lines, s)
        + (if Header(line).None? && LastHeader(lines) == s then line + "\n" else "");
    }
  }

  // ---------------------------------------------------------------------
  // Cards
  // ---------------------------------------------------------------------

  const AlertBorder: string := "#ef5350"
  const AlertBackground: string := "#fff5f5"
  const PlainBackground: string := "#ffffff"

  /** A card: its title bar in `color`, a left border, and the formatted body. */
  datatype Card = Card(title: string, color: string, border: string, background: string, body: string)

  /** A body calls for the alert style when it mentions a warning or an alert,
      in any letter case, or has the word "Heavy" as written. */
  predicate IsAlert(body: string) {
    Contains(Upper(body), "WARNING") || Contains(Upper(body), "ALERT") || Contains(body, "Heavy")
  }

  /** The body of a card: the stripped text with `<br>` line breaks and
      emphasised labels. */
  function CardBody(content: string): string {
    Emphasize(NewlinesToBr(Strip(content)))
  }

  /** `create_card`: nothing for a section with fewer than three characters
      once stripped; otherwise a card with that body, in the alert colours
      when the body reads as an alert. */
  function CreateCard(title: string, content: string, color: string): (r: Option<Card>)
    ensures r.None? <==> |Strip(content)| < 3
    ensures r.Some? ==> r.value.title == title && r.value.color == color && r.value.body == CardBody(content)
    ensures r.Some? ==> (r.value.background == AlertBackground <==> IsAlert(r.value.body))
    ensures r.Some? ==> r.value.border == (if IsAlert(r.value.body) then AlertBorder else color)
  {
    if |Strip(content)| < 3 then None
    else
      var body := CardBody(content);
      if IsAlert(body) then Some(Card(title, color, AlertBorder, AlertBackground, body))
      else Some(Card(title, color, color, PlainBackground, body))
  }

  /** The card body reads back as the stripped section, as long as the
      section has no `<` of its own: dropping the label tags and turning
      `<br>` into newlines again loses nothing. */
  lemma CardBodyReadsBack(content: string)
    requires '<' !in content
    ensures BrToNewlines(Unemphasize(CardBody(content))) == Strip(content)
  {
    StripKeepsVisible(content, '<');
    MarkupRoundTrip(Strip(content));
  }

  // ---------------------------------------------------------------------
  // The page
  // ---------------------------------------------------------------------

  /** What the chat window shows: the "No response received" panel, or the
      cards (with how many sections were found non-blank) and, when there is
      no card, the whole answer as formatted text. */
  datatype Page =
    | NoResponse
    | Rendered(cards: seq<Card>, cardsCreated: nat, fallback: Option<string>)

  /** The card of a section's text, if the text is not blank and long enough. */
  function CardIf(text: string, title: string, color: string): (r: seq<Card>)
    ensures |r| <= 1
  {
    if Strip(text) != [] && CreateCard(title, text, color).Some? then [CreateCard(title, text, color).value] else []
  }

  /** One if a section's text is not blank. */
  function CountIf(text: string): nat {
    if Strip(text) != [] then 1 else 0
  }

  /** The cards, in the order the page shows them. */
  function Cards(lines: seq<string>): seq<Card> {
    CardIf(Collected(lines, MultiRouteSection), "Multi-Destination Route Plan", "#FF6B35")
    + CardIf(Collected(lines, RouteSection), "Route Information", "#78C841")
    + CardIf(Collected(lines, TrafficSection), "Traffic Analysis", "#f57c00")
    + CardIf(Collected(lines, WeatherSection), "Weather Conditions", "#6B8E23")
    + CardIf(Collected(lines, CostSection), "Cost Estimate", "#7b1fa2")
  }

  /** How many named sections are not blank. */
  function CardCount(lines: seq<string>): nat {
    CountIf(Collected(lines, MultiRouteSection)) + CountIf(Collected(lines, RouteSection))
    + CountIf(Collected(lines, TrafficSection)) + CountIf(Collected(lines, WeatherSection))
    + CountIf(Collected(lines, CostSection))
  }

  /** The answer shown as text: `**bold**` spans as `<strong>`, newlines as `<br>`. */
  function Fallback(text: string): string {
    NewlinesToBr(Bold(text))
  }

  /** The page for an answer long enough to show. */
  function Layout(text: string): Page {
    var lines := SplitLines(text);
    Rendered(Cards(lines), CardCount(lines), if CardCount(lines) == 0 then Some(Fallback(text)) else None)
  }

  /** Reads the answer line by line: a heading line switches the current
      section, any other line is appended to it with its newline. */
  method SplitSections(responseText: string) returns (sections: map<Section, string>)
    ensures sections == SectionsOf(SplitLines(responseText))
  {
    var lines := SplitLines(responseText);
    sections := map[RouteSection := "", MultiRouteSection := "", WeatherSection := "",
                    TrafficSection := "", CostSection := "", OtherSection := ""];
    var current := OtherSection;
    assert lines[..0] == [];
    var k := 0;
    while k < |lines|
      invariant 0 <= k <= |lines|
      invariant current == LastHeader(lines[..k])
      invariant sections == SectionsOf(lines[..k])
    {
      var line := lines[k];
      assert lines[..k + 1] == lines[..k] + [line];
      SectionsSnoc(lines[..k], line);
      var h := Header(line);
      if h.Some? {
        current := h.value;
      } else {
        sections := sections[current := sections[current] + line + "\n"];
      }
      assert current == LastHeader(lines[..k + 1]) && sections == SectionsOf(lines[..k + 1]);
      k := k + 1;
    }
    assert lines[..k] == lines;
  }

  /** One of the five card steps: a section that is not blank is counted and,
      when `create_card` makes something of it, its card is added. */
  method AddCard(cards: seq<Card>, created: nat, text: string, title: string, color: string)
    returns (cards': seq<Card>, created': nat)
    ensures cards' == cards + CardIf(text, title, color)
    ensures created' == created + CountIf(text)
  {
    cards', created' := cards, created;
    if Strip(text) != [] {
      var card := CreateCard(title, text, color);
      if card.Some? {
        cards' := cards' + [card.value];
      }
      created' := created' + 1;
    }
  }

  /** Makes a card of each named section that is not blank, in a fixed order;
      with no such section the answer is shown as text. An answer that is
      blank or shorter than ten characters once stripped gets the "No
      response received" panel. */
  method FormatResponse(responseText: string) returns (page: Page)
    ensures |Strip(responseText)| < 10 ==> page == NoResponse
    ensures |Strip(responseText)| >= 10 ==> page == Layout(responseText)
  {
    if |Strip(responseText)| < 10 {
      return NoResponse;
    }
    var sections := SplitSections(responseText);
    ghost var lines := SplitLines(responseText);
    CardsOfSections(lines, sections);
    var cards: seq<Card> := [];
    var created := 0;
    cards, created := AddCard(cards, created, sections[MultiRouteSection], "Multi-Destination Route Plan", "#FF6B35");
    assert cards == CardIf(sections[MultiRouteSection], "Multi-Destination Route Plan", "#FF6B35");
    cards, created := AddCard(cards, created, sections[RouteSection], "Route Information", "#78C841");
    cards, created := AddCard(cards, created, sections[TrafficSection], "Traffic Analysis", "#f57c00");
    cards, created := AddCard(cards, created, sections[WeatherSection], "Weather Conditions", "#6B8E23");
    cards, created := AddCard(cards, created, sections[CostSection], "Cost Estimate", "#7b1fa2");
    assert cards == Cards(lines);
    var fallback: Option<string> := None;
    if created == 0 {
      fallback := Some(Fallback(responseText));
    }
    page := Rendered(cards, created, fallback);
    LayoutOf(responseText, cards, created);
  }

  /** The cards and their count, read off the sections map. */
  lemma CardsOfSections(lines: seq<string>, sections: map<Section, string>)
    requires sections == SectionsOf(lines)
    ensures Cards(lines) ==
      CardIf(sections[MultiRouteSection], "Multi-Destination Route Plan", "#FF6B35")
      + CardIf(sections[RouteSection], "Route Information", "#78C841")
      + CardIf(sections[TrafficSection], "Traffic Analysis", "#f57c00")
      + CardIf(sections[WeatherSection], "Weather Conditions", "#6B8E23")
      + CardIf(sections[CostSection], "Cost Estimate", "#7b1fa2")
    ensures CardCount(lines) ==
      CountIf(sections[MultiRouteSection]) + CountIf(sections[RouteSection]) + CountIf(sections[TrafficSection])
      + CountIf(sections[WeatherSection]) + CountIf(sections[CostSection])
  {
  }

  lemma LayoutOf(text: string, cards: seq<Card>, created: nat)
    requires cards == Cards(SplitLines(text)) && created == CardCount(SplitLines(text))
    ensures Layout(text) == Rendered(cards, created, if created == 0 then Some(Fallback(text)) else None)
  {
  }

  /** A section makes a card only if it is not all whitespace. */
  lemma CountIfBlank(text: string)
    ensures CountIf(text) == 0 <==> AllSpace(text)
  {
    StripEmptyIffAllSpace(text);
  }

  lemma CardCountZero(lines: seq<string>)
    ensures CardCount(lines) == 0 <==>
      CountIf(Collected(lines, MultiRouteSection)) == 0 && CountIf(Collected(lines, RouteSection)) == 0
      && CountIf(Collected(lines, TrafficSection)) == 0 && CountIf(Collected(lines, WeatherSection)) == 0
      && CountIf(Collected(lines, CostSection)) == 0
  {
  }

  /** No card is made exactly when every named section is all whitespace. */
  lemma NoCardIffNoNamedSection(lines: seq<string>)
    ensures CardCount(lines) == 0 <==> forall s :: s != OtherSection ==> AllSpace(Collected(lines, s))
  {
    CardCountZero(lines);
    CountIfBlank(Collected(lines, MultiRouteSection));
    CountIfBlank(Collected(lines, RouteSection));
    CountIfBlank(Collected(lines, TrafficSection));
    CountIfBlank(Collected(lines, WeatherSection));
    CountIfBlank(Collected(lines, CostSection));
    if CardCount(lines) == 0 {
      forall s | s != OtherSection ensures AllSpace(Collected(lines, s)) {
        match s
        case MultiRouteSection =>
        case RouteSection =>
        case TrafficSection =>
        case WeatherSection =>
        case CostSection =>
      }
    }
  }

  /** At most one card per named section, and none when none is counted. */
  lemma CardsAreCounted(lines: seq<string>)
    ensures |Cards(lines)| <= CardCount(lines) <= 5
    ensures CardCount(lines) == 0 ==> Cards(lines) == []
  {
  }

  /** The answer is shown as text exactly when every named section is blank,
      and then it is the only thing shown. */
  lemma FallbackIffNoNamedSection(text: string)
    ensures Layout(text).fallback.Some? <==>
      forall s :: s != OtherSection ==> AllSpace(Collected(SplitLines(text), s))
    ensures Layout(text).fallback.Some? ==> Layout(text).cards == [] && Layout(text).fallback == Some(Fallback(text))
  {
    var lines := SplitLines(text);
    LayoutParts(text);
    NoCardIffNoNamedSection(lines);
    CardsAreCounted(lines);
  }

  lemma LayoutParts(text: string)
    ensures Layout(text).cards == Cards(SplitLines(text))
    ensures Layout(text).fallback.Some? <==> CardCount(SplitLines(text)) == 0
    ensures Layout(text).fallback.Some? ==> Layout(text).fallback == Some(Fallback(text))
  {
  }

  /** An answer without a single heading line is shown as text. */
  lemma UnheadedAnswerFallsBack(text: string)
    requires forall i :: 0 <= i < |SplitLines(text)| ==> Header(SplitLines(text)[i]).None?
    ensures Layout(text).cards == []
    ensures Layout(text).fallback == Some(Fallback(text))
  {
    WithoutHeadingsAllIsOther(SplitLines(text));
    FallbackIffNoNamedSection(text);
  }
}

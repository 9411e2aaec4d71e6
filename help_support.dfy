/** The help page of client/src/pages/HelpSupport.jsx: the question-and-answer search,
    which sections and questions it shows, the no-results notice and the contact form.
    The sections' text is a parameter: the page's own list is static content. */
module HelpSupport {
  import opened JsText
  import opened Sequences

  datatype FaqItem = FaqItem(question: string, answer: string)

  datatype Section = Section(id: string, title: string, content: seq<FaqItem>)

  /** `text.toLowerCase().includes(query.toLowerCase())`. */
  predicate Mentions(text: string, query: string) {
    Contains(Lower(text), Lower(query))
  }

  predicate ItemMatches(item: FaqItem, query: string) {
    Mentions(item.question, query) || Mentions(item.answer, query)
  }

  /** A section is found by its title or by any of its questions and answers. */
  predicate SectionMatches(s: Section, query: string) {
    Mentions(s.title, query) || exists i | 0 <= i < |s.content| :: ItemMatches(s.content[i], query)
  }

  /** `filteredSections`: the sections the query finds, in page order. */
  function FilteredSections(sections: seq<Section>, query: string): (r: seq<Section>)
    ensures IsSubsequence(r, sections)
    ensures forall i | 0 <= i < |r| :: SectionMatches(r[i], query)
    ensures forall i | 0 <= i < |sections| :: sections[i] in r <==> SectionMatches(sections[i], query)
  {
    SelectIsSubsequence(sections, (s: Section) => SectionMatches(s, query));
    Select(sections, (s: Section) => SectionMatches(s, query))
  }

  /** Within a shown section, a question is listed when there is no query or it matches. */
  predicate ItemShown(item: FaqItem, query: string) {
    query == "" || ItemMatches(item, query)
  }

  function VisibleItems(s: Section, query: string): (r: seq<FaqItem>)
    ensures IsSubsequence(r, s.content)
    ensures forall i | 0 <= i < |s.content| :: s.content[i] in r <==> ItemShown(s.content[i], query)
  {
    SelectIsSubsequence(s.content, (item: FaqItem) => ItemShown(item, query));
    Select(s.content, (item: FaqItem) => ItemShown(item, query))
  }

  /** A found section is drawn when it is the selected one or when a query is typed. */
  predicate Drawn(s: Section, activeSection: string, query: string) {
    activeSection == s.id || query != ""
  }

  /** The sections drawn in the main column. */
  function RenderedSections(sections: seq<Section>, activeSection: string, query: string): (r: seq<Section>)
    ensures forall i | 0 <= i < |sections| ::
      sections[i] in r <==> SectionMatches(sections[i], query) && Drawn(sections[i], activeSection, query)
  {
    var found := FilteredSections(sections, query);
    Select(found, (s: Section) => Drawn(s, activeSection, query))
  }

  /** The "No results found" notice. */
  predicate NoResults(sections: seq<Section>, query: string) {
    query != "" && |FilteredSections(sections, query)| == 0
  }

  /** Every text mentions the empty query. */
  lemma EmptyQueryMentioned(text: string)
    ensures Mentions(text, "")
  {
    ContainsEmpty(Lower(text));
  }

  /** With no query every section is found, and every question is listed. */
  lemma EmptyQueryKeepsAll(sections: seq<Section>)
    ensures FilteredSections(sections, "") == sections
    ensures forall s | s in sections :: VisibleItems(s, "") == s.content
  {
    forall s | s in sections ensures SectionMatches(s, "") {
      EmptyQueryMentioned(s.title);
    }
    SelectAll(sections, (s: Section) => SectionMatches(s, ""));
    forall s | s in sections ensures VisibleItems(s, "") == s.content {
      SelectAll(s.content, (item: FaqItem) => ItemShown(item, ""));
    }
  }

  /** A section found only by its title lists no questions under a query. */
  lemma TitleOnlyMatchShowsNoItems(s: Section, query: string)
    requires query != ""
    requires Mentions(s.title, query)
    requires forall i | 0 <= i < |s.content| :: !ItemMatches(s.content[i], query)
    ensures SectionMatches(s, query)
    ensures VisibleItems(s, query) == []
  {
  }

  /** The notice shows exactly when a query is typed and no section, title, question or
      answer mentions it. */
  lemma NoResultsMeaning(sections: seq<Section>, query: string)
    ensures NoResults(sections, query) <==>
      query != "" && forall i | 0 <= i < |sections| :: !SectionMatches(sections[i], query)
  {
    var found := FilteredSections(sections, query);
    if query != "" && |found| > 0 {
      assert found[0] in sections;
    }
  }

  /** With a query typed every found section is drawn; without one only the selected
      section is, since every section is found. */
  lemma RenderedMeaning(sections: seq<Section>, activeSection: string, query: string)
    ensures query != "" ==> RenderedSections(sections, activeSection, query) == FilteredSections(sections, query)
    ensures query == "" ==> forall i | 0 <= i < |sections| ::
      sections[i] in RenderedSections(sections, activeSection, query) <==> sections[i].id == activeSection
  {
    var found := FilteredSections(sections, query);
    if query != "" {
      SelectAll(found, (s: Section) => Drawn(s, activeSection, query));
    } else {
      EmptyQueryKeepsAll(sections);
    }
  }

  const ContactFields: seq<string> := ["name", "email", "subject", "message"]

  /** The empty contact form. */
  function EmptyContact(): (m: map<string, string>)
    ensures forall k | k in ContactFields :: k in m && m[k] == ""
    ensures m.Keys == set k | k in ContactFields
  {
    map["name" := "", "email" := "", "subject" := "", "message" := ""]
  }

  class HelpState {
    var activeSection: string
    var contactForm: map<string, string>
    var searchQuery: string

    constructor()
      ensures activeSection == "getting-started" && contactForm == EmptyContact() && searchQuery == ""
    {
      activeSection := "getting-started";
      contactForm := EmptyContact();
      searchQuery := "";
    }

    /** A click on a section in the side bar. */
    method SelectSection(id: string)
      modifies this
      ensures activeSection == id
      ensures contactForm == old(contactForm) && searchQuery == old(searchQuery)
    {
      activeSection := id;
    }

    /** Typing in the search box. */
    method SetSearchQuery(query: string)
      modifies this
      ensures searchQuery == query
      ensures activeSection == old(activeSection) && contactForm == old(contactForm)
    {
      searchQuery := query;
    }

    /** `handleInputChange`: the named contact field takes the value; the others keep theirs. */
    method HandleInputChange(name: string, value: string)
      modifies this
      ensures contactForm == old(contactForm)[name := value]
      ensures forall k | k in old(contactForm) && k != name :: k in contactForm && contactForm[k] == old(contactForm)[k]
      ensures activeSection == old(activeSection) && searchQuery == old(searchQuery)
    {
      contactForm := contactForm[name := value];
    }

    /** `handleContactSubmit`: the message is handed on and the form is cleared. */
    method HandleContactSubmit() returns (sent: map<string, string>)
      modifies this
      ensures sent == old(contactForm)
      ensures contactForm == EmptyContact()
      ensures activeSection == old(activeSection) && searchQuery == old(searchQuery)
    {
      sent := contactForm;
      contactForm := EmptyContact();
    }
  }
}

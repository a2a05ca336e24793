/** The documents view: the fixed list of eight documents, the search over
    name and category, the technical / guide tabs and the summary cards. */
module DocumentsView {
  import opened Text
  import opened Seqs

  datatype DocType = Technical | Guide

  /** A document; size and upload date are display strings. */
  datatype Document = Document(id: string, name: string, docType: DocType, size: string,
                               uploadDate: string, category: string)

  /** The documents hard-coded in the component. */
  function Documents(): seq<Document> {
    [ Document("d1", "Arquitectura del Sistema.pdf", Technical, "2.4 MB", "2025-02-15", "Diseño"),
      Document("d2", "Especificación de API REST.pdf", Technical, "1.8 MB", "2025-03-01", "Backend"),
      Document("d3", "Diagrama de Base de Datos.pdf", Technical, "1.2 MB", "2025-02-20", "Base de Datos"),
      Document("d4", "Guía de Instalación y Configuración.pdf", Guide, "3.1 MB", "2025-03-10", "Setup"),
      Document("d5", "Manual de Usuario Final.pdf", Guide, "5.6 MB", "2025-03-15", "Usuario"),
      Document("d6", "Guía de Desarrollo Frontend.pdf", Guide, "2.9 MB", "2025-03-05", "Desarrollo"),
      Document("d7", "Protocolo de Testing y QA.pdf", Technical, "1.5 MB", "2025-03-12", "Testing"),
      Document("d8", "Guía de Despliegue en Producción.pdf", Guide, "2.2 MB", "2025-03-18", "Deployment") ]
  }

  /** The search term occurs, ignoring case, in the name or the category. */
  predicate DocMatches(d: Document, term: string) {
    Contains(Lower(d.name), Lower(term)) || Contains(Lower(d.category), Lower(term))
  }

  function Search(term: string): Document -> bool {
    d => DocMatches(d, term)
  }

  predicate IsTechnical(d: Document) {
    d.docType == Technical
  }

  predicate IsGuide(d: Document) {
    d.docType == Guide
  }

  /** `filteredDocuments`. */
  function FilteredDocuments(docs: seq<Document>, term: string): (r: seq<Document>)
    ensures IsSubsequence(r, docs)
    ensures forall i :: 0 <= i < |r| ==> DocMatches(r[i], term)
    ensures forall i :: 0 <= i < |docs| && DocMatches(docs[i], term) ==> docs[i] in r
    ensures forall d :: multiset(r)[d] == if DocMatches(d, term) then multiset(docs)[d] else 0
  {
    FilterMultiplicity(Search(term), docs);
    Filter(Search(term), docs)
  }

  /** The three tabs: all matches, the technical ones and the guides. */
  datatype Tabs = Tabs(all: seq<Document>, technical: seq<Document>, guides: seq<Document>)

  function DocumentTabs(docs: seq<Document>, term: string): (t: Tabs)
    ensures t.all == FilteredDocuments(docs, term)
    ensures forall i :: 0 <= i < |t.technical| ==> t.technical[i].docType == Technical
    ensures forall i :: 0 <= i < |t.guides| ==> t.guides[i].docType == Guide
  {
    var filtered := FilteredDocuments(docs, term);
    Tabs(filtered, Filter(IsTechnical, filtered), Filter(IsGuide, filtered))
  }

  /** The technical and guide tabs split the matches: no document is in both,
      every match is in one of them, and the "all" count is their sum. */
  lemma TabsPartition(docs: seq<Document>, term: string)
    ensures var t := DocumentTabs(docs, term);
      && |t.all| == |t.technical| + |t.guides|
      && (forall i :: 0 <= i < |t.all| ==> (t.all[i] in t.technical <==> t.all[i] !in t.guides))
  {
    var t := DocumentTabs(docs, term);
    FilterComplement(IsTechnical, IsGuide, t.all);
  }

  /** With an empty search every document is listed. */
  lemma EmptySearchKeepsAll(docs: seq<Document>)
    ensures FilteredDocuments(docs, "") == docs
  {
    forall i | 0 <= i < |docs| ensures Search("")(docs[i]) {
      assert Lower("") == "";
      ContainsEmpty(Lower(docs[i].name));
    }
    FilterKeepsAll(Search(""), docs);
  }

  /** The summary cards count the unfiltered list. */
  datatype SummaryCards = SummaryCards(total: nat, guides: nat, technical: nat)

  function Summary(docs: seq<Document>): (s: SummaryCards)
    ensures s.total == |docs| == s.guides + s.technical
    ensures s.guides == |DocumentTabs(docs, "").guides|
    ensures s.technical == |DocumentTabs(docs, "").technical|
  {
    FilterComplement(IsGuide, IsTechnical, docs);
    EmptySearchKeepsAll(docs);
    SummaryCards(|docs|, Count(IsGuide, docs), Count(IsTechnical, docs))
  }

  /** Searching can only shrink the tabs below the summary cards, which do not
      depend on the term. */
  lemma TabsBoundedBySummary(docs: seq<Document>, term: string)
    ensures var t, s := DocumentTabs(docs, term), Summary(docs);
      |t.all| <= s.total && |t.technical| <= s.technical && |t.guides| <= s.guides
  {
    FilterCountBound(IsTechnical, Search(term), docs);
    FilterCountBound(IsGuide, Search(term), docs);
  }
}

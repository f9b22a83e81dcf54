/** `TermGlossary`: the summary's terms, narrowed by a case-insensitive
    search over the term and its definition. */
module TermGlossary {
  import opened Seqs
  import opened Strings

  datatype Term = Term(term: string, definition: string)

  /** The term or its definition, lower-cased, contains the lower-cased
      query `q`. */
  predicate Matches(t: Term, q: string) {
    Contains(Lower(t.term), q) || Contains(Lower(t.definition), q)
  }

  /** The `filtered` memo: every term for an empty search, otherwise the
      matching terms in their order. */
  function Filtered(terms: seq<Term>, search: string): (r: seq<Term>)
    ensures search == "" ==> r == terms
    ensures search != "" ==> forall t :: t in r <==> t in terms && Matches(t, Lower(search))
    ensures search != "" ==> forall t :: multiset(r)[t] == if Matches(t, Lower(search)) then multiset(terms)[t] else 0
    ensures IsSubseq(r, terms)
  {
    if search == "" then
      assert IsSubseq(terms, terms) by { FilterAll(terms, _ => true); FilterIsSubseq(terms, _ => true); }
      terms
    else
      var q := Lower(search);
      FilterIsSubseq(terms, t => Matches(t, q));
      FilterMultiset(terms, t => Matches(t, q));
      Filter(terms, t => Matches(t, q))
  }

  /** What renders: nothing without terms, otherwise the filtered list and
      the "No matching terms" note exactly when that list is empty. */
  datatype Glossary = Nothing | Listing(items: seq<Term>, noMatches: bool)

  function View(terms: seq<Term>, search: string): (g: Glossary)
    ensures g.Nothing? <==> terms == []
    ensures g.Listing? ==> g.items == Filtered(terms, search) && (g.noMatches <==> g.items == [])
  {
    if terms == [] then Nothing
    else
      var items := Filtered(terms, search);
      Listing(items, items == [])
  }

  /** The search ignores the case of ASCII letters in the query. */
  lemma SearchIgnoresCase(terms: seq<Term>, search: string)
    ensures Filtered(terms, Lower(search)) == Filtered(terms, search)
  {
    LowerIdempotent(search);
    if search != "" {
      var q := Lower(search);
      FilterExt(terms, t => Matches(t, Lower(q)), t => Matches(t, q));
    }
  }

  /** Typing more narrows the list: a query whose lower-cased form contains
      another's keeps only terms the shorter one keeps. */
  lemma LongerSearchNarrows(terms: seq<Term>, short: string, long: string)
    requires short != "" && Contains(Lower(long), Lower(short))
    ensures forall t :: t in Filtered(terms, long) ==> t in Filtered(terms, short)
  {
    assert long != "";
    forall t | t in Filtered(terms, long) ensures t in Filtered(terms, short) {
      if Contains(Lower(t.term), Lower(long)) {
        ContainsTrans(Lower(t.term), Lower(long), Lower(short));
      } else {
        ContainsTrans(Lower(t.definition), Lower(long), Lower(short));
      }
    }
  }
}

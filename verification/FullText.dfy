/**
 The full-text index: an inverted index that triggers keep beside the documents table, row by row, and that search
 reads instead of the documents.
 */
module FullText {
  import opened Wrappers
  import opened Knowledge

  datatype Column = TitleColumn | BodyColumn | ServiceColumn

  datatype Posting = Posting(term: string, row: nat, column: Column, position: nat)

  /** `porter unicode61`, or any tokenizer: text to terms. */
  type Tokenizer = string -> seq<string>

  /** The terms of one column; a missing service has none. */
  function Terms(tok: Tokenizer, d: Document, c: Column): seq<string> {
    match c
    case TitleColumn => tok(d.title)
    case BodyColumn => tok(d.body)
    case ServiceColumn => if d.service.Some? then tok(d.service.value) else []
  }

  function ColumnPostings(terms: seq<string>, row: nat, c: Column): multiset<Posting> {
    if terms == [] then multiset{}
    else ColumnPostings(terms[..|terms| - 1], row, c)
         + multiset{Posting(terms[|terms| - 1], row, c, |terms| - 1)}
  }

  /** What the index is told to add, or to delete, for one row. */
  function RowPostings(tok: Tokenizer, row: nat, d: Document): multiset<Posting> {
    ColumnPostings(Terms(tok, d, TitleColumn), row, TitleColumn)
    + ColumnPostings(Terms(tok, d, BodyColumn), row, BodyColumn)
    + ColumnPostings(Terms(tok, d, ServiceColumn), row, ServiceColumn)
  }

  /** The document has the posting's term, in its column, at its position. */
  predicate Indexed(tok: Tokenizer, d: Document, p: Posting) {
    var terms := Terms(tok, d, p.column);
    p.position < |terms| && terms[p.position] == p.term
  }

  lemma {:induction false} ColumnPostingsCount(terms: seq<string>, row: nat, c: Column, p: Posting)
    ensures ColumnPostings(terms, row, c)[p] ==
      if p.row == row && p.column == c && p.position < |terms| && terms[p.position] == p.term then 1 else 0
  {
    if terms != [] {
      ColumnPostingsCount(terms[..|terms| - 1], row, c, p);
    }
  }

  lemma RowPostingsCount(tok: Tokenizer, row: nat, d: Document, p: Posting)
    ensures RowPostings(tok, row, d)[p] == if p.row == row && Indexed(tok, d, p) then 1 else 0
  {
    ColumnPostingsCount(Terms(tok, d, TitleColumn), row, TitleColumn, p);
    ColumnPostingsCount(Terms(tok, d, BodyColumn), row, BodyColumn, p);
    ColumnPostingsCount(Terms(tok, d, ServiceColumn), row, ServiceColumn, p);
  }

  type Rows = map<nat, Document>

  ghost predicate AgreesOn(tok: Tokenizer, rows: Rows, postings: multiset<Posting>, p: Posting) {
    postings[p] == if p.row in rows && Indexed(tok, rows[p.row], p) then 1 else 0
  }

  /** The postings are those of the documents: each once, and no others. */
  ghost predicate Agrees(tok: Tokenizer, rows: Rows, postings: multiset<Posting>) {
    forall p :: AgreesOn(tok, rows, postings, p)
  }

  lemma InsertAgrees(tok: Tokenizer, rows: Rows, postings: multiset<Posting>, row: nat, d: Document)
    requires Agrees(tok, rows, postings) && row !in rows
    ensures Agrees(tok, rows[row := d], postings + RowPostings(tok, row, d))
  {
    var after, added := rows[row := d], postings + RowPostings(tok, row, d);
    forall p ensures AgreesOn(tok, after, added, p) {
      assert AgreesOn(tok, rows, postings, p);
      RowPostingsCount(tok, row, d, p);
    }
  }

  lemma DeleteAgrees(tok: Tokenizer, rows: Rows, postings: multiset<Posting>, row: nat)
    requires Agrees(tok, rows, postings) && row in rows
    ensures Agrees(tok, rows - {row}, postings - RowPostings(tok, row, rows[row]))
  {
    var after, left := rows - {row}, postings - RowPostings(tok, row, rows[row]);
    forall p ensures AgreesOn(tok, after, left, p) {
      assert AgreesOn(tok, rows, postings, p);
      RowPostingsCount(tok, row, rows[row], p);
    }
  }

  predicate Carries(rows: Rows, r: nat, id: string) {
    r in rows && rows[r].id == id
  }

  /** The rows hold the documents of `t`, each under one row id. */
  ghost predicate Stores(rows: Rows, t: Documents) {
    && (forall r :: r in rows ==> rows[r].id in t && t[rows[r].id] == rows[r])
    && (forall r, s, id :: Carries(rows, r, id) && Carries(rows, s, id) ==> r == s)
    && forall id :: id in t ==> exists r :: Carries(rows, r, id)
  }

  lemma StoresPut(rows: Rows, t: Documents, row: nat, d: Document)
    requires Stores(rows, t) && (if row in rows then rows[row].id == d.id else d.id !in t)
    ensures Stores(rows[row := d], t[d.id := d])
  {
    var after, u := rows[row := d], t[d.id := d];
    forall id | id in u ensures exists r :: Carries(after, r, id) {
      if id == d.id {
        assert Carries(after, row, id);
      } else {
        var r :| Carries(rows, r, id);
        assert Carries(after, r, id);
      }
    }
    forall r, s, id | Carries(after, r, id) && Carries(after, s, id) ensures r == s {
      assert r != row ==> Carries(rows, r, id);
      assert s != row ==> Carries(rows, s, id);
      assert row in rows ==> Carries(rows, row, d.id);
    }
    forall r | r in after ensures after[r].id in u && u[after[r].id] == after[r] {
      if r != row {
        assert Carries(rows, r, rows[r].id);
        assert row in rows ==> Carries(rows, row, d.id);
      }
    }
  }

  lemma StoresTake(rows: Rows, t: Documents, row: nat)
    requires Stores(rows, t) && row in rows
    ensures Stores(rows - {row}, Remove(t, rows[row].id))
  {
    var after, u := rows - {row}, Remove(t, rows[row].id);
    assert Carries(rows, row, rows[row].id);
    forall r, s, id | Carries(after, r, id) && Carries(after, s, id) ensures r == s {
      assert Carries(rows, r, id) && Carries(rows, s, id);
    }
    forall id | id in u ensures exists r :: Carries(after, r, id) {
      var r :| Carries(rows, r, id);
      assert Carries(after, r, id);
    }
    forall r | r in after ensures after[r].id in u && u[after[r].id] == after[r] {
      assert Carries(rows, r, rows[r].id);
    }
  }

  // ------------------------------------------------------------------------ matching

  /** A quoted term of the query, tokenized: its terms side by side, somewhere in one column. */
  ghost predicate PhraseInDocument(tok: Tokenizer, d: Document, phrase: seq<string>) {
    phrase != [] && exists c: Column, at: nat :: PhraseAt(tok, d, phrase, c, at)
  }

  predicate PhraseAt(tok: Tokenizer, d: Document, phrase: seq<string>, c: Column, at: nat) {
    at + |phrase| <= |Terms(tok, d, c)| && Terms(tok, d, c)[at..at + |phrase|] == phrase
  }

  /** The same, as the index sees it: the phrase starts at this posting. */
  predicate StartsPhrase(postings: multiset<Posting>, p: Posting, phrase: seq<string>) {
    phrase != [] && forall j: nat :: j < |phrase| ==> Posting(phrase[j], p.row, p.column, p.position + j) in postings
  }

  lemma PhraseAgrees(tok: Tokenizer, rows: Rows, postings: multiset<Posting>, p: Posting, phrase: seq<string>)
    requires Agrees(tok, rows, postings) && phrase != []
    ensures StartsPhrase(postings, p, phrase) <==>
      p.row in rows && PhraseAt(tok, rows[p.row], phrase, p.column, p.position)
  {
    if StartsPhrase(postings, p, phrase) {
      PostedIsPresent(tok, rows, postings, p, phrase);
    }
    if p.row in rows && PhraseAt(tok, rows[p.row], phrase, p.column, p.position) {
      var terms := Terms(tok, rows[p.row], p.column);
      forall j: nat | j < |phrase| ensures Posting(phrase[j], p.row, p.column, p.position + j) in postings {
        assert terms[p.position..p.position + |phrase|][j] == terms[p.position + j];
        assert AgreesOn(tok, rows, postings, Posting(phrase[j], p.row, p.column, p.position + j));
      }
    }
  }

  lemma PostedIsPresent(tok: Tokenizer, rows: Rows, postings: multiset<Posting>, p: Posting, phrase: seq<string>)
    requires Agrees(tok, rows, postings) && StartsPhrase(postings, p, phrase)
    ensures p.row in rows && PhraseAt(tok, rows[p.row], phrase, p.column, p.position)
  {
    assert Posting(phrase[0], p.row, p.column, p.position + 0) in postings;
    assert AgreesOn(tok, rows, postings, Posting(phrase[0], p.row, p.column, p.position + 0));
    forall j: nat | j < |phrase|
      ensures Indexed(tok, rows[p.row], Posting(phrase[j], p.row, p.column, p.position + j))
    {
      assert AgreesOn(tok, rows, postings, Posting(phrase[j], p.row, p.column, p.position + j));
    }
    assert Indexed(tok, rows[p.row], Posting(phrase[0], p.row, p.column, p.position + 0));
    var last := |phrase| - 1;
    assert Indexed(tok, rows[p.row], Posting(phrase[last], p.row, p.column, p.position + last));
    assert Terms(tok, rows[p.row], p.column)[p.position..p.position + |phrase|] == phrase;
  }

  /** `AND d.kind IN (...)` and `AND d.service = ?`; an empty list and an empty name filter nothing. */
  predicate Passes(d: Document, kinds: set<Kind>, service: string) {
    (kinds == {} || d.kind in kinds) && (service == "" || d.service == Some(service))
  }

  /** The phrase's terms side by side among these. */
  ghost predicate SideBySide(phrase: seq<string>, terms: seq<string>) {
    phrase != [] && exists at: nat :: StandsAt(phrase, terms, at)
  }

  predicate StandsAt(phrase: seq<string>, terms: seq<string>, at: nat) {
    at + |phrase| <= |terms| && terms[at..at + |phrase|] == phrase
  }

  /** In the title, in the body, or in the name of the service. */
  ghost predicate Mentions(tok: Tokenizer, d: Document, phrase: seq<string>) {
    || SideBySide(phrase, tok(d.title))
    || SideBySide(phrase, tok(d.body))
    || (d.service.Some? && SideBySide(phrase, tok(d.service.value)))
  }

  /** A document a reader of every document would return: any term of the query, and the filters. */
  ghost predicate Wanted(tok: Tokenizer, d: Document, query: seq<string>, kinds: set<Kind>, service: string) {
    && (kinds == {} || d.kind in kinds) && (service == "" || d.service == Some(service))
    && exists q :: q in query && Mentions(tok, d, tok(q))
  }

  /** What a scan of every document would return. */
  ghost function FullScan(tok: Tokenizer, t: Documents, query: seq<string>, kinds: set<Kind>, service: string):
    set<string>
  {
    set id | id in t && Wanted(tok, t[id], query, kinds, service)
  }

  /** What the index matches, column by column, is what a reader finds. */
  lemma PhraseMeaning(tok: Tokenizer, d: Document, phrase: seq<string>)
    ensures PhraseInDocument(tok, d, phrase) <==> Mentions(tok, d, phrase)
  {
    if PhraseInDocument(tok, d, phrase) {
      var c: Column, at: nat :| PhraseAt(tok, d, phrase, c, at);
      match c {
        case TitleColumn => assert StandsAt(phrase, tok(d.title), at);
        case BodyColumn => assert StandsAt(phrase, tok(d.body), at);
        case ServiceColumn => assert d.service.Some? && StandsAt(phrase, tok(d.service.value), at);
      }
    }
    if SideBySide(phrase, tok(d.title)) {
      var at: nat :| StandsAt(phrase, tok(d.title), at);
      assert PhraseAt(tok, d, phrase, TitleColumn, at);
    }
    if SideBySide(phrase, tok(d.body)) {
      var at: nat :| StandsAt(phrase, tok(d.body), at);
      assert PhraseAt(tok, d, phrase, BodyColumn, at);
    }
    if d.service.Some? && SideBySide(phrase, tok(d.service.value)) {
      var at: nat :| StandsAt(phrase, tok(d.service.value), at);
      assert PhraseAt(tok, d, phrase, ServiceColumn, at);
    }
  }

  // --------------------------------------------------------------------- the index

  class FTSKnowledgeIndex {
    var rows: Rows
    var postings: multiset<Posting>
    ghost var contents: Documents
    const tok: Tokenizer

    ghost predicate Valid()
      reads this
    {
      Agrees(tok, rows, postings) && Stores(rows, contents)
    }

    constructor (tok: Tokenizer)
      ensures Valid() && contents == map[] && this.tok == tok
    {
      this.tok, rows, postings, contents := tok, map[], multiset{}, map[];
    }

    /** After-update trigger: take the old row out of the index, put the new one in. */
    method UpdateRow(row: nat, d: Document)
      requires Valid() && row in rows && d.id == rows[row].id
      modifies this
      ensures Valid() && contents == old(contents)[d.id := d] && rows == old(rows)[row := d]
    {
      hide RowPostings, Agrees, Stores;
      DeleteAgrees(tok, rows, postings, row);
      InsertAgrees(tok, rows - {row}, postings - RowPostings(tok, row, rows[row]), row, d);
      StoresPut(rows, contents, row, d);
      assert (rows - {row})[row := d] == rows[row := d];
      postings := postings - RowPostings(tok, row, rows[row]) + RowPostings(tok, row, d);
      rows := rows[row := d];
      contents := contents[d.id := d];
    }

    /** `add`: insert, at any row id not in use, or update the row that has the id. */
    method Add(d: Document, freshRow: nat)
      requires Valid() && freshRow !in rows
      modifies this
      ensures Valid() && contents == Upsert(old(contents), d)
      ensures d.id !in old(contents) ==> contents == old(contents)[d.id := d]
      ensures d.id in old(contents) ==>
        var was := old(contents)[d.id];
        contents == old(contents)[d.id :=
          Document(was.id, was.kind, d.title, d.body, d.service, was.threadId, d.verified, was.createdAt, d.metadata)]
    {
      hide RowPostings, Agrees;
      if row :| row in rows && rows[row].id == d.id {
        UpdateRow(row, rows[row].(title := d.title, body := d.body, service := d.service, verified := d.verified,
                                  metadata := d.metadata));
      } else {
        assert d.id !in contents by {
          assert forall r :: !Carries(rows, r, d.id);
        }
        InsertAgrees(tok, rows, postings, freshRow, d);
        StoresPut(rows, contents, freshRow, d);
        hide Stores;
        postings := postings + RowPostings(tok, freshRow, d);
        rows := rows[freshRow := d];
        contents := contents[d.id := d];
      }
    }

    method DeleteDocument(id: string) returns (deleted: bool)
      requires Valid()
      modifies this
      ensures Valid() && contents == Remove(old(contents), id)
      ensures contents.Keys == old(contents).Keys - {id}
      ensures forall key :: key in contents ==> contents[key] == old(contents)[key]
      ensures deleted <==> id in old(contents)
    {
      hide RowPostings, Agrees;
      if row :| row in rows && rows[row].id == id {
        DeleteAgrees(tok, rows, postings, row);
        StoresTake(rows, contents, row);
        postings := postings - RowPostings(tok, row, rows[row]);
        rows := rows - {row};
        contents := Remove(contents, id);
        deleted := true;
      } else {
        assert id !in contents by {
          assert forall r :: !Carries(rows, r, id);
        }
        assert Remove(contents, id) == contents;
        deleted := false;
      }
    }

    /** The update trigger runs here too, although no indexed column changes. */
    method MarkVerified(id: string, verified: bool) returns (found: bool)
      requires Valid()
      modifies this
      ensures Valid() && contents == SetVerified(old(contents), id, verified)
      ensures id !in old(contents) ==> contents == old(contents)
      ensures id in old(contents) ==>
        var d := old(contents)[id];
        contents == old(contents)[id :=
          Document(d.id, d.kind, d.title, d.body, d.service, d.threadId, verified, d.createdAt, d.metadata)]
      ensures found <==> id in old(contents)
    {
      if row :| row in rows && rows[row].id == id {
        UpdateRow(row, rows[row].(verified := verified));
        found := true;
      } else {
        assert id !in contents by {
          assert forall r :: !Carries(rows, r, id);
        }
        found := false;
      }
    }

    /** The rows the index matches, joined to their documents and filtered: what a full scan would find. */
    method Matching(query: seq<string>, kinds: set<Kind>, service: string) returns (ids: set<string>)
      requires Valid()
      ensures ids == FullScan(tok, contents, query, kinds, service)
    {
      hide Agrees, StartsPhrase, Mentions;
      if query == [] {
        return {};
      }
      var matched := set p | p in postings && (exists q :: q in query && StartsPhrase(postings, p, tok(q))) :: p.row;
      ids := set r | r in rows && r in matched && Passes(rows[r], kinds, service) :: rows[r].id;
      forall r | r in rows
        ensures r in matched <==> exists q :: q in query && Mentions(tok, rows[r], tok(q))
      {
        RowMatches(tok, rows, postings, r, query, matched);
      }
      forall id ensures id in ids <==> id in FullScan(tok, contents, query, kinds, service) {
        if id in contents {
          var r :| Carries(rows, r, id);
          assert contents[id] == rows[r];
        }
      }
    }

    /**
     `search`: the best of the documents a full scan would find, best first, as many as the limit allows. `score` is
     BM25, or any other function; a smaller number is a better match.
     */
    method Search(query: seq<string>, kinds: set<Kind>, service: string, score: string -> real, limit: int)
      returns (ids: seq<string>)
      requires Valid()
      ensures BestOf(ids, FullScan(tok, contents, query, kinds, service), score, limit)
      ensures forall id :: id in ids ==> id in contents && Wanted(tok, contents[id], query, kinds, service)
      ensures forall id :: id in contents && Wanted(tok, contents[id], query, kinds, service) && id !in ids ==>
        limit >= 0 && |ids| == limit && forall other :: other in ids ==> score(other) <= score(id)
    {
      var found := Matching(query, kinds, service);
      ids := Sorted(found, score, limit);
      if limit < 0 || |found| <= limit {
        AllBest(ids, found, score, limit);
      }
    }
  }

  /** `ORDER BY score LIMIT ?`: the best of what was found, best first; a negative limit is none. */
  ghost predicate BestOf(ids: seq<string>, found: set<string>, score: string -> real, limit: int) {
    && Distinct(ids) && (forall id :: id in ids ==> id in found)
    && |ids| == (if limit < 0 then |found| else Min(limit, |found|))
    && (forall i, j :: 0 <= i < j < |ids| ==> score(ids[i]) <= score(ids[j]))
    && forall id, other :: id in ids && other in found && other !in ids ==> score(id) <= score(other)
  }

  lemma {:induction false} LeastExists(found: set<string>, score: string -> real)
    requires found != {}
    ensures exists id :: id in found && forall other :: other in found ==> score(id) <= score(other)
  {
    var x :| x in found;
    if found == {x} {
      assert x in found;
    } else {
      LeastExists(found - {x}, score);
      var y :| y in found - {x} && forall other :: other in found - {x} ==> score(y) <= score(other);
      var least := if score(x) <= score(y) then x else y;
      assert least in found && forall other :: other in found ==> score(least) <= score(other);
    }
  }

  /** When there is room for all, all are returned. */
  lemma AllBest(ids: seq<string>, found: set<string>, score: string -> real, limit: int)
    requires BestOf(ids, found, score, limit) && (limit < 0 || |found| <= limit)
    ensures forall id :: id in found ==> id in ids
  {
    var seen := set i | i in ids;
    DistinctFill(ids);
    SubsetOfSize(seen, found);
  }

  lemma {:induction false} DistinctFill(ids: seq<string>)
    requires Distinct(ids)
    ensures |set i | i in ids| == |ids|
  {
    if ids != [] {
      var front, last := ids[..|ids| - 1], ids[|ids| - 1];
      assert ids == front + [last];
      DistinctFill(front);
      assert (set i | i in ids) == (set i | i in front) + {last};
      assert last !in front;
    }
  }

  lemma {:induction false} SubsetOfSize(small: set<string>, big: set<string>)
    requires small <= big && |small| == |big|
    ensures small == big
  {
    if small != {} {
      var x :| x in small;
      SubsetOfSize(small - {x}, big - {x});
      assert small == small - {x} + {x} && big == big - {x} + {x};
    }
  }

  /** The ids chosen so far, in order, and those that are left, none of them better. */
  ghost predicate Chosen(ids: seq<string>, rest: set<string>, found: set<string>, score: string -> real) {
    && |ids| + |rest| == |found| && Distinct(ids)
    && (forall id :: id in found <==> id in ids || id in rest)
    && (forall id :: id in ids ==> id !in rest)
    && (forall i, j :: 0 <= i < j < |ids| ==> score(ids[i]) <= score(ids[j]))
    && forall id, other :: id in ids && other in rest ==> score(id) <= score(other)
  }

  ghost predicate IsLeast(rest: set<string>, score: string -> real, id: string) {
    id in rest && forall other :: other in rest ==> score(id) <= score(other)
  }

  lemma ChooseNext(ids: seq<string>, rest: set<string>, found: set<string>, score: string -> real, id: string)
    requires Chosen(ids, rest, found, score) && IsLeast(rest, score, id)
    ensures Chosen(ids + [id], rest - {id}, found, score) && |rest - {id}| == |rest| - 1
  {
  }

  lemma ChosenAreBest(ids: seq<string>, rest: set<string>, found: set<string>, score: string -> real, limit: int)
    requires Chosen(ids, rest, found, score)
    requires (rest == {} && (limit >= 0 ==> |ids| <= limit)) || (limit >= 0 && |ids| == limit)
    ensures BestOf(ids, found, score, limit)
  {
  }

  method Sorted(found: set<string>, score: string -> real, limit: int) returns (ids: seq<string>)
    ensures BestOf(ids, found, score, limit)
  {
    ids := [];
    var rest := found;
    assert Chosen(ids, rest, found, score);
    hide Chosen, BestOf;
    while rest != {} && (limit < 0 || |ids| < limit)
      invariant Chosen(ids, rest, found, score) && (limit >= 0 ==> |ids| <= limit)
      decreases |rest|
    {
      LeastExists(rest, score);
      var least :| least in rest && forall other :: other in rest ==> score(least) <= score(other);
      ChooseNext(ids, rest, found, score, least);
      ids := ids + [least];
      rest := rest - {least};
    }
    ChosenAreBest(ids, rest, found, score, limit);
  }

  lemma RowMatches(tok: Tokenizer, rows: Rows, postings: multiset<Posting>, r: nat,
                   query: seq<string>, matched: set<nat>)
    requires Agrees(tok, rows, postings) && r in rows
    requires matched == set p | p in postings && (exists q :: q in query && StartsPhrase(postings, p, tok(q))) :: p.row
    ensures r in matched <==> exists q :: q in query && Mentions(tok, rows[r], tok(q))
  {
    hide Agrees, Mentions;
    if r in matched {
      var p :| p in postings && (exists q :: q in query && StartsPhrase(postings, p, tok(q))) && p.row == r;
      var q :| q in query && StartsPhrase(postings, p, tok(q));
      PhraseAgrees(tok, rows, postings, p, tok(q));
      assert PhraseAt(tok, rows[r], tok(q), p.column, p.position);
      assert PhraseInDocument(tok, rows[r], tok(q));
      PhraseMeaning(tok, rows[r], tok(q));
    }
    if q :| q in query && Mentions(tok, rows[r], tok(q)) {
      PhraseMeaning(tok, rows[r], tok(q));
      var phrase := tok(q);
      var c: Column, at: nat :| PhraseAt(tok, rows[r], phrase, c, at);
      var p := Posting(phrase[0], r, c, at);
      PhraseAgrees(tok, rows, postings, p, phrase);
      assert Posting(phrase[0], p.row, p.column, p.position + 0) in postings;
      assert p.row in matched;
    }
  }
}

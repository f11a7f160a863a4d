/** The meme collection page: the list of memes, the search over titles and
    tags, and the add, edit and delete actions that go through the form.
    The fresh id and the creation time of a new meme, and the answer to the
    delete confirmation, come from outside and are parameters. */
module MemeApp {
  import opened Wrappers
  import opened Text
  import opened Lists
  import opened MemeForm

  // ---------------------------------------------------------------------
  // Search
  // ---------------------------------------------------------------------

  /** The search test: the term, ignoring case, occurs in the title or in
      one of the tags. */
  predicate Matches(m: Meme, term: string) {
    || Contains(Lower(m.title), Lower(term))
    || exists k :: 0 <= k < |m.tags| && Contains(Lower(m.tags[k]), Lower(term))
  }

  /** `filteredMemes`: the memes that match the term, in their order. */
  function Search(memes: seq<Meme>, term: string): (r: seq<Meme>)
    ensures IsSubsequence(r, memes)
    ensures forall k :: 0 <= k < |r| ==> Matches(r[k], term)
    ensures forall m :: multiset(r)[m] == if Matches(m, term) then multiset(memes)[m] else 0
  {
    Filter(memes, m => Matches(m, term))
  }

  /** An empty search shows every meme. */
  lemma EmptySearchShowsAll(memes: seq<Meme>)
    ensures Search(memes, "") == memes
  {
    forall k | 0 <= k < |memes|
      ensures Matches(memes[k], "")
    {
      ContainsEmpty(Lower(memes[k].title));
    }
    FilterAll(memes, m => Matches(m, ""));
  }

  lemma LowerTwice(s: string)
    ensures Lower(Lower(s)) == Lower(s)
  {
  }

  /** The case of the search term does not matter. */
  lemma SearchIgnoresCase(memes: seq<Meme>, term: string)
    ensures Search(memes, Lower(term)) == Search(memes, term)
  {
    LowerTwice(term);
    FilterAgree(memes, m => Matches(m, Lower(term)), m => Matches(m, term));
  }

  /** A meme whose title contains the term is found. */
  lemma TitleFound(memes: seq<Meme>, term: string, i: nat)
    requires i < |memes| && Contains(Lower(memes[i].title), Lower(term))
    ensures memes[i] in Search(memes, term)
  {
    assert multiset(memes)[memes[i]] > 0;
  }

  // ---------------------------------------------------------------------
  // The collection
  // ---------------------------------------------------------------------

  function Ids(memes: seq<Meme>): (r: seq<string>)
    ensures |r| == |memes| && forall k :: 0 <= k < |memes| ==> r[k] == memes[k].id
  {
    seq(|memes|, k requires 0 <= k < |memes| => memes[k].id)
  }

  /** No two memes share an id. */
  predicate UniqueIds(memes: seq<Meme>) {
    forall i, j :: 0 <= i < j < |memes| ==> memes[i].id != memes[j].id
  }

  /** The new meme of the add action: the form's fields, the fresh id and
      the creation time. */
  function NewMeme(data: MemeFormData, id: string, createdAt: nat): (m: Meme)
    ensures FormDataOf(m) == data && m.id == id && m.createdAt == createdAt
  {
    Meme(id, data.url, data.title, data.tags, createdAt)
  }

  /** `{ ...meme, ...data }`: the form's fields over the stored meme. */
  function Merge(m: Meme, data: MemeFormData): (r: Meme)
    ensures FormDataOf(r) == data && r.id == m.id && r.createdAt == m.createdAt
  {
    m.(title := data.title, url := data.url, tags := data.tags)
  }

  /** The edit action's `map`: every meme with the id takes the form's
      fields, the others stay as they are. */
  function EditById(memes: seq<Meme>, id: string, data: MemeFormData): (r: seq<Meme>)
    ensures |r| == |memes|
    ensures forall k :: 0 <= k < |memes| ==>
              r[k] == if memes[k].id == id then Merge(memes[k], data) else memes[k]
    decreases |memes|
  {
    if memes == [] then []
    else
      var rest := EditById(memes[1..], id, data);
      [if memes[0].id == id then Merge(memes[0], data) else memes[0]] + rest
  }

  /** Editing keeps every meme's id and creation time where it was. */
  lemma EditKeepsIds(memes: seq<Meme>, id: string, data: MemeFormData)
    ensures Ids(EditById(memes, id, data)) == Ids(memes)
    ensures forall k :: 0 <= k < |memes| ==> EditById(memes, id, data)[k].createdAt == memes[k].createdAt
  {
  }

  /** Editing an id no meme has changes nothing. */
  lemma EditAbsentId(memes: seq<Meme>, id: string, data: MemeFormData)
    requires id !in Ids(memes)
    ensures EditById(memes, id, data) == memes
  {
    var r := EditById(memes, id, data);
    forall k | 0 <= k < |memes|
      ensures r[k] == memes[k]
    {
      assert Ids(memes)[k] == memes[k].id;
    }
  }

  /** Submitting the same edit twice is the same as submitting it once. */
  lemma EditTwice(memes: seq<Meme>, id: string, data: MemeFormData)
    ensures EditById(EditById(memes, id, data), id, data) == EditById(memes, id, data)
  {
  }

  /** `memes.filter(meme => meme.id !== id)`: every meme with the id goes,
      every other one stays as often and in the order it was. */
  function DeleteById(memes: seq<Meme>, id: string): (r: seq<Meme>)
    ensures IsSubsequence(r, memes)
    ensures id !in Ids(r)
    ensures forall m :: multiset(r)[m] == if m.id == id then 0 else multiset(memes)[m]
  {
    Filter(memes, (m: Meme) => m.id != id)
  }

  /** Deleting an id no meme has changes nothing. */
  lemma DeleteAbsentId(memes: seq<Meme>, id: string)
    requires id !in Ids(memes)
    ensures DeleteById(memes, id) == memes
  {
    forall k | 0 <= k < |memes|
      ensures memes[k].id != id
    {
      assert Ids(memes)[k] == memes[k].id;
    }
    FilterAll(memes, (m: Meme) => m.id != id);
  }

  /** With unique ids, deleting the id of a listed meme removes exactly that one. */
  lemma DeleteOne(memes: seq<Meme>, i: nat)
    requires UniqueIds(memes) && i < |memes|
    ensures DeleteById(memes, memes[i].id) == memes[..i] + memes[i + 1..]
  {
    var id := memes[i].id;
    forall k | 0 <= k < |memes| && k != i
      ensures memes[k].id != id
    {
      if k < i { assert memes[k].id != memes[i].id; } else { assert memes[i].id != memes[k].id; }
    }
    FilterDropsOne(memes, (m: Meme) => m.id != id, i);
  }

  /** Deleting keeps the ids unique. */
  lemma DeleteKeepsUnique(memes: seq<Meme>, id: string)
    requires UniqueIds(memes)
    ensures UniqueIds(DeleteById(memes, id))
  {
    var r := DeleteById(memes, id);
    SubsequenceIds(r, memes);
  }

  /** A sub-list of a list with unique ids has unique ids. */
  lemma {:induction false} SubsequenceIds(a: seq<Meme>, b: seq<Meme>)
    requires IsSubsequence(a, b) && UniqueIds(b)
    ensures UniqueIds(a)
    decreases |b|
  {
    if a != [] && b != [] {
      if a[0] == b[0] {
        SubsequenceIds(a[1..], b[1..]);
        forall j | 0 < j < |a|
          ensures a[0].id != a[j].id
        {
          assert a[1..][j - 1] == a[j];
          SubsequenceMember(a[1..], b[1..], j - 1);
        }
      } else {
        SubsequenceIds(a, b[1..]);
      }
    }
  }

  /** Every element of a sub-list is an element of the rest of the list. */
  lemma {:induction false} SubsequenceMember(a: seq<Meme>, b: seq<Meme>, j: nat)
    requires IsSubsequence(a, b) && j < |a|
    ensures exists k :: 0 <= k < |b| && b[k] == a[j]
    decreases |b|
  {
    if a[0] == b[0] {
      if j == 0 {
        assert b[0] == a[j];
      } else {
        SubsequenceMember(a[1..], b[1..], j - 1);
        var k :| 0 <= k < |b[1..]| && b[1..][k] == a[1..][j - 1];
        assert b[k + 1] == a[j];
      }
    } else {
      SubsequenceMember(a, b[1..], j);
      var k :| 0 <= k < |b[1..]| && b[1..][k] == a[j];
      assert b[k + 1] == a[j];
    }
  }

  // ---------------------------------------------------------------------
  // The page
  // ---------------------------------------------------------------------

  class App {
    var memes: seq<Meme>
    var showForm: bool
    var editingMeme: Option<Meme>
    var searchTerm: string

    /** A meme is only being edited while the form is open. */
    predicate Valid()
      reads this
    {
      editingMeme.Some? ==> showForm
    }

    /** The page with the built-in memes, no form and no search. */
    constructor(defaultMemes: seq<Meme>)
      ensures Valid()
      ensures memes == defaultMemes && !showForm && editingMeme == None && searchTerm == ""
    {
      memes := defaultMemes;
      showForm := false;
      editingMeme := None;
      searchTerm := "";
    }

    /** `filteredMemes`: what the grid shows, the matching memes in their
        order; with no search term, all of them. */
    function Shown(): (r: seq<Meme>)
      reads this
      ensures IsSubsequence(r, memes)
      ensures forall k :: 0 <= k < |r| ==> Matches(r[k], searchTerm)
      ensures searchTerm == "" ==> r == memes
      ensures forall m :: multiset(r)[m] == if Matches(m, searchTerm) then multiset(memes)[m] else 0
    {
      EmptySearchShowsAll(memes);
      Search(memes, searchTerm)
    }

    /** `initialData`: the form is filled with the edited meme's title, url
        and tags while a meme is being edited, and is empty otherwise. */
    function InitialData(): (r: Option<MemeFormData>)
      reads this
      ensures r.Some? <==> editingMeme.Some?
      ensures r.Some? ==> && r.value.title == editingMeme.value.title
                          && r.value.url == editingMeme.value.url
                          && r.value.tags == editingMeme.value.tags
    {
      if editingMeme.Some? then Some(FormDataOf(editingMeme.value)) else None
    }

    /** The add button opens an empty form. */
    method OpenForm()
      modifies this`showForm
      ensures Valid()
      ensures showForm
    {
      showForm := true;
    }

    /** `handleEdit`: the form opens on the meme. */
    method HandleEdit(meme: Meme)
      modifies this`showForm, this`editingMeme
      ensures Valid()
      ensures showForm && editingMeme == Some(meme) && InitialData() == Some(FormDataOf(meme))
    {
      editingMeme := Some(meme);
      showForm := true;
    }

    /** The form's cancel: the form closes and nothing is being edited. */
    method Cancel()
      modifies this`showForm, this`editingMeme
      ensures Valid()
      ensures !showForm && editingMeme == None
    {
      showForm := false;
      editingMeme := None;
    }

    /** Typing in the search box. */
    method SetSearchTerm(term: string)
      modifies this`searchTerm
      ensures searchTerm == term
    {
      searchTerm := term;
    }

    /** `handleSubmit`: while editing, the memes with the edited id take the
        form's fields; otherwise a new meme with the id `newId` and the time
        `now` goes in front. The form then closes and nothing is being edited.
        A fresh id keeps the ids unique. */
    method HandleSubmit(data: MemeFormData, newId: string, now: nat)
      modifies this`memes, this`showForm, this`editingMeme
      ensures Valid()
      ensures old(editingMeme).Some? ==> memes == EditById(old(memes), old(editingMeme).value.id, data)
      ensures old(editingMeme).None? ==> memes == [NewMeme(data, newId, now)] + old(memes)
      ensures !showForm && editingMeme == None
      ensures UniqueIds(old(memes)) && newId !in Ids(old(memes)) ==> UniqueIds(memes)
    {
      if editingMeme.Some? {
        EditKeepsIds(memes, editingMeme.value.id, data);
        memes := EditById(memes, editingMeme.value.id, data);
        editingMeme := None;
      } else {
        if UniqueIds(memes) && newId !in Ids(memes) {
          forall k | 0 <= k < |memes|
            ensures memes[k].id != newId
          {
            assert Ids(memes)[k] == memes[k].id;
          }
        }
        memes := [NewMeme(data, newId, now)] + memes;
      }
      showForm := false;
    }

    /** `handleDelete`: once confirmed, every meme with the id goes. */
    method HandleDelete(id: string, confirmed: bool)
      modifies this`memes
      ensures memes == if confirmed then DeleteById(old(memes), id) else old(memes)
      ensures UniqueIds(old(memes)) ==> UniqueIds(memes)
    {
      if confirmed {
        if UniqueIds(memes) {
          DeleteKeepsUnique(memes, id);
        }
        memes := DeleteById(memes, id);
      }
    }
  }
}

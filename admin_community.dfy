/** `src/components/admin/admin-community.tsx`: the contributor manager.
    Its controller mirrors `community_contributions` and also holds the
    fundraising target derived from the BOQ lines; its form derives a
    contributor's initials from the name. */
module AdminCommunity {
  import opened Wrappers
  import opened Gateway
  import opened Types
  import Lists
  import Totals
  import BoqTable

  datatype Contributor = Contributor(
    id: string, name: string, initials: string, image: string,
    contribution: string, role: string, amount: real)

  function ContributorId(c: Contributor): string { c.id }

  // ---------------------------------------------------------------------
  // Initials: name.split(' ').map(n => n[0]).join('')
  // ---------------------------------------------------------------------

  /** `s.split(' ')`: the pieces between single spaces, empty pieces
      included; the empty string splits into one empty piece. */
  function Split(s: string): (r: seq<string>)
    ensures |r| >= 1
    ensures forall i :: 0 <= i < |r| ==> ' ' !in r[i]
    decreases |s|
  {
    if s == [] then [[]]
    else if s[0] == ' ' then [[]] + Split(s[1..])
    else
      var rest := Split(s[1..]);
      [[s[0]] + rest[0]] + rest[1..]
  }

  /** `segments.join(' ')`. */
  function Join(segments: seq<string>): string
  {
    if segments == [] then []
    else if |segments| == 1 then segments[0]
    else segments[0] + " " + Join(segments[1..])
  }

  /** `n[0]` as `join` renders it: the first character, or nothing when the
      piece is empty (`undefined` joins as the empty string). */
  function Head(segment: string): (r: string)
    ensures |r| <= 1
    ensures r != [] <==> segment != []
    ensures r != [] ==> r[0] == segment[0]
  {
    if segment == [] then [] else [segment[0]]
  }

  /** `segments.map(n => n[0]).join('')`. */
  function HeadsJoined(segments: seq<string>): (r: string)
    ensures |r| <= |segments|
  {
    if segments == [] then [] else Head(segments[0]) + HeadsJoined(segments[1..])
  }

  /** `name.split(' ').map(n => n[0]).join('')`: at most one initial per
      piece; an empty name has none. */
  function Initials(name: string): (r: string)
    ensures |r| <= |Split(name)|
    ensures name == [] ==> r == []
  {
    HeadsJoined(Split(name))
  }

  /** An independent reading of the initials: scan the name and keep every
      non-space character that starts it or follows a space. */
  function ScanInitials(s: string, atStart: bool): string
  {
    if s == [] then []
    else (if atStart && s[0] != ' ' then [s[0]] else []) + ScanInitials(s[1..], s[0] == ' ')
  }

  /** Splitting on spaces and joining with spaces gives the name back. */
  lemma {:induction false} JoinSplit(s: string)
    ensures Join(Split(s)) == s
  {
    if s != [] {
      JoinSplit(s[1..]);
      var rest := Split(s[1..]);
      if s[0] == ' ' {
        assert Split(s) == [[]] + rest;
        assert (([[]] + rest)[1..]) == rest;
      } else {
        var first := [s[0]] + rest[0];
        assert Split(s) == [first] + rest[1..];
        if |rest| == 1 {
          assert Join(Split(s)) == first;
        } else {
          assert ([first] + rest[1..])[1..] == rest[1..];
          assert Join(Split(s)) == first + " " + Join(rest[1..]);
        }
        assert s == [s[0]] + s[1..];
      }
    }
  }

  lemma {:induction false} HeadsJoinedConcat(a: seq<string>, b: seq<string>)
    ensures HeadsJoined(a + b) == HeadsJoined(a) + HeadsJoined(b)
  {
    if a == [] {
      assert a + b == b;
    } else {
      assert (a + b)[1..] == a[1..] + b;
      HeadsJoinedConcat(a[1..], b);
    }
  }

  /** An empty piece, as repeated spaces produce, contributes nothing. */
  lemma EmptySegmentContributesNothing(a: seq<string>, b: seq<string>)
    ensures HeadsJoined(a + [[]] + b) == HeadsJoined(a) + HeadsJoined(b)
  {
    HeadsJoinedConcat(a + [[]], b);
    HeadsJoinedConcat(a, [[]]);
  }

  /** The split-map-join derivation agrees with the scan, for the whole name
      (`atStart`) and for the name after its first piece. */
  lemma {:induction false} InitialsAreScan(s: string)
    ensures Initials(s) == ScanInitials(s, true)
    ensures HeadsJoined(Split(s)[1..]) == ScanInitials(s, false)
  {
    if s != [] {
      InitialsAreScan(s[1..]);
      var rest := Split(s[1..]);
      if s[0] == ' ' {
        assert Split(s) == [[]] + rest;
        assert ([[]] + rest)[1..] == rest;
      } else {
        var first := [s[0]] + rest[0];
        assert Split(s) == [first] + rest[1..];
        assert ([first] + rest[1..])[1..] == rest[1..];
        assert rest == [rest[0]] + rest[1..];
      }
    }
  }

  /** Each initial is a non-space character of the name. */
  lemma {:induction false} ScanInitialsAreNameCharacters(s: string, atStart: bool)
    ensures forall c :: c in ScanInitials(s, atStart) ==> c in s && c != ' '
    ensures |ScanInitials(s, atStart)| <= |s|
  {
    if s != [] {
      ScanInitialsAreNameCharacters(s[1..], s[0] == ' ');
    }
  }

  /** There are at most as many initials as space-separated pieces, and no
      initial is a space. */
  lemma InitialsBound(name: string)
    ensures |Initials(name)| <= |Split(name)|
    ensures forall c :: c in Initials(name) ==> c in name && c != ' '
  {
    InitialsAreScan(name);
    ScanInitialsAreNameCharacters(name, true);
  }

  /** A word without spaces is one piece, and a space after it ends the
      piece. */
  lemma {:induction false} SplitWord(w: string, rest: string)
    requires w != [] && ' ' !in w
    ensures Split(w) == [w]
    ensures Split(w + " " + rest) == [w] + Split(rest)
  {
    var t := w + " " + rest;
    assert t[1..] == w[1..] + " " + rest;
    if |w| == 1 {
      assert t[1..] == " " + rest;
      assert (" " + rest)[1..] == rest;
    } else {
      SplitWord(w[1..], rest);
      assert [w[0]] + w[1..] == w;
    }
  }

  /** Two words separated by one space give their two first letters. */
  lemma TwoWordInitials(first: string, last: string)
    requires first != [] && ' ' !in first
    requires last != [] && ' ' !in last
    ensures Initials(first + " " + last) == [first[0], last[0]]
  {
    SplitWord(first, last);
    SplitWord(last, "");
    var pieces := [first, last];
    assert Split(first + " " + last) == pieces;
    assert pieces[1..] == [last] && [last][1..] == [];
    assert HeadsJoined([last]) == [last[0]];
  }

  /** The names and initials of the public contributor list, as its
      fixture pairs them. */
  const PublicContributors: seq<(string, string)> := [
    ("Alice Johnson", "AJ"), ("Bob Williams", "BW"), ("Charlie Brown", "CB"), ("Diana Miller", "DM")
  ]

  /** The derivation reproduces the fixture's initials. */
  lemma FixtureInitials()
    ensures forall i :: 0 <= i < |PublicContributors| ==>
              Initials(PublicContributors[i].0) == PublicContributors[i].1
  {
    forall i | 0 <= i < |PublicContributors|
      ensures Initials(PublicContributors[i].0) == PublicContributors[i].1
    {
      var (name, initials) := PublicContributors[i];
      if i == 0 {
        assert name == "Alice" + " " + "Johnson";
        TwoWordInitials("Alice", "Johnson");
      } else if i == 1 {
        assert name == "Bob" + " " + "Williams";
        TwoWordInitials("Bob", "Williams");
      } else if i == 2 {
        assert name == "Charlie" + " " + "Brown";
        TwoWordInitials("Charlie", "Brown");
      } else {
        assert name == "Diana" + " " + "Miller";
        TwoWordInitials("Diana", "Miller");
      }
    }
  }

  /** A doubled space between two words changes nothing: the empty piece
      between the spaces contributes no initial. */
  lemma DoubledSpaceWordInitials(first: string, last: string)
    requires first != [] && ' ' !in first
    requires last != [] && ' ' !in last
    ensures Initials(first + "  " + last) == [first[0], last[0]]
  {
    var tail := " " + last;
    assert first + "  " + last == first + " " + tail;
    SplitWord(first, tail);
    assert tail[0] == ' ' && tail[1..] == last;
    SplitWord(last, "");
    assert Split(tail) == [[]] + [last];
    assert Split(first + "  " + last) == [first] + [[]] + [last];
    EmptySegmentContributesNothing([first], [last]);
    assert [first][1..] == [] && [last][1..] == [];
  }

  /** "Alice  Johnson", with a doubled space, still gives "AJ". */
  lemma DoubledSpaceInitials()
    ensures Initials("Alice  Johnson") == "AJ"
  {
    assert "Alice  Johnson" == "Alice" + "  " + "Johnson";
    DoubledSpaceWordInitials("Alice", "Johnson");
  }

  // ---------------------------------------------------------------------
  // ContributorForm
  // ---------------------------------------------------------------------

  const DefaultImage: string := "https://picsum.photos/seed/105/40/40"

  /** The form's five editable fields. */
  datatype Draft = Draft(name: string, contribution: string, role: string, amount: real, image: string)

  /** What the form hands to `onSubmit`: exactly these six fields, no id. */
  datatype Payload = Payload(name: string, contribution: string, role: string, amount: real, image: string, initials: string)

  /** The form's initial state, with the `||` fallbacks of its `useState`
      calls. */
  function FormDefaults(item: Option<Contributor>): (d: Draft)
    ensures item.None? ==> d == Draft("", "", "Volunteer", 0.0, DefaultImage)
    ensures item.Some? ==> d.name == item.value.name && d.contribution == item.value.contribution &&
                           d.amount == item.value.amount
    ensures item.Some? && item.value.role != "" ==> d.role == item.value.role
    ensures item.Some? && item.value.image != "" ==> d.image == item.value.image
    ensures d.role != "" && d.image != ""
  {
    match item
    case None => Draft("", "", "Volunteer", 0.0, DefaultImage)
    case Some(c) => Draft(OrElse(c.name, ""), OrElse(c.contribution, ""), OrElse(c.role, "Volunteer"),
                          OrZero(c.amount), OrElse(c.image, DefaultImage))
  }

  /** The form's `handleSubmit`. */
  function FormSubmit(d: Draft): (p: Payload)
    ensures p.initials == Initials(d.name)
    ensures p.name == d.name && p.contribution == d.contribution && p.role == d.role
    ensures p.amount == d.amount && p.image == d.image
  {
    Payload(d.name, d.contribution, d.role, d.amount, d.image, Initials(d.name))
  }

  /** The inputs marked `required` are all filled in. The browser runs
      `handleSubmit` only then; the amount is a number input and always
      holds a value. */
  predicate Submittable(d: Draft)
  {
    d.name != "" && d.contribution != "" && d.role != "" && d.image != ""
  }

  /** What reaches `onSubmit` when the submit button is pressed: nothing
      while a required field is empty. */
  function Submitted(d: Draft): (r: Option<Payload>)
    ensures r.Some? <==> d.name != "" && d.contribution != "" && d.role != "" && d.image != ""
    ensures r.Some? ==> r.value == FormSubmit(d)
  {
    if Submittable(d) then Some(FormSubmit(d)) else None
  }

  /** An untouched new-contributor form cannot be submitted: its name and
      contribution are empty. */
  lemma NewFormNotSubmittable()
    ensures Submitted(FormDefaults(None)) == None
  {
  }

  /** An untouched edit form can be submitted exactly when the item has a
      name and a contribution: role and image fall back to non-empty
      defaults. */
  lemma EditFormSubmittable(c: Contributor)
    ensures Submitted(FormDefaults(Some(c))).Some? <==> c.name != "" && c.contribution != ""
  {
  }

  /** A new contributor starts as a volunteer with amount 0. */
  lemma NewFormDefaults()
    ensures FormDefaults(None).role == "Volunteer" && FormDefaults(None).amount == 0.0
    ensures FormDefaults(None).name == "" && FormDefaults(None).contribution == ""
  {
  }

  /** An edit form starts from the item's fields, except that an empty role
      or image falls back to the new-contributor default. */
  lemma EditFormDefaults(c: Contributor)
    ensures FormDefaults(Some(c)).name == c.name
    ensures FormDefaults(Some(c)).contribution == c.contribution
    ensures FormDefaults(Some(c)).amount == c.amount
    ensures FormDefaults(Some(c)).role == if c.role == "" then "Volunteer" else c.role
    ensures FormDefaults(Some(c)).image == if c.image == "" then DefaultImage else c.image
  {
  }

  /** Submitting an untouched edit form re-sends the item's fields and
      re-derives its initials from its name. */
  lemma EditRoundTrip(c: Contributor)
    requires c.role != "" && c.image != ""
    ensures FormSubmit(FormDefaults(Some(c))) == Payload(c.name, c.contribution, c.role, c.amount, c.image, Initials(c.name))
  {
    EditFormDefaults(c);
  }

  // ---------------------------------------------------------------------
  // Fundraising target
  // ---------------------------------------------------------------------

  /** A `boq_items` row as `select('quantity, rate')` returns it. */
  datatype RateRow = RateRow(quantity: real, rate: real)

  function RowAmount(row: RateRow): real
  {
    row.quantity * row.rate
  }

  /** `select('quantity, rate')` applied to BOQ lines. */
  function Selected(items: seq<BoqItem>): (r: seq<RateRow>)
    ensures |r| == |items|
    ensures forall i :: 0 <= i < |items| ==> r[i] == RateRow(items[i].quantity, items[i].rate)
  {
    if items == [] then [] else [RateRow(items[0].quantity, items[0].rate)] + Selected(items[1..])
  }

  /** The target: the BOQ total plus 10%. */
  function Target(rows: seq<RateRow>): (t: real)
    ensures rows == [] ==> t == 0.0
  {
    Totals.Total(rows, RowAmount) * 1.1
  }

  /** No rows give a zero target; non-negative quantities and rates give a
      non-negative one. */
  lemma TargetBounds(rows: seq<RateRow>)
    ensures rows == [] ==> Target(rows) == 0.0
    ensures (forall i :: 0 <= i < |rows| ==> rows[i].quantity >= 0.0 && rows[i].rate >= 0.0) ==> Target(rows) >= 0.0
  {
    if forall i :: 0 <= i < |rows| ==> rows[i].quantity >= 0.0 && rows[i].rate >= 0.0 {
      forall i | 0 <= i < |rows| ensures RowAmount(rows[i]) >= 0.0 {
        var q, r := rows[i].quantity, rows[i].rate;
        assert q * r >= 0.0;
      }
    }
  }

  /** The target is 1.1 times the grand total the BOQ table shows for the
      same lines. */
  lemma TargetIsGrandTotalPlusTenPercent(items: seq<BoqItem>)
    ensures Target(Selected(items)) == 1.1 * BoqTable.GrandTotal(items)
  {
    Totals.TotalPointwise(Selected(items), RowAmount, items, BoqTable.Amount);
  }

  // ---------------------------------------------------------------------
  // The controller
  // ---------------------------------------------------------------------

  class Controller {
    var contributors: seq<Contributor>
    var target: real
    var dialogOpen: bool
    var editing: Option<Contributor>

    /** No contributors, target 0, dialog closed. */
    constructor ()
      ensures contributors == [] && target == 0.0 && !dialogOpen && editing == None
    {
      contributors := [];
      target := 0.0;
      dialogOpen := false;
      editing := None;
    }

    /** `fetchData`: returned contributor rows replace the list wholesale,
        in the order returned; BOQ rows, when returned, set the target; a
        query that returns no data leaves its field as it was. */
    method FetchData(contributions: Response<Contributor>, boq: Response<RateRow>)
      modifies this`contributors, this`target
      ensures contributions.data.Some? ==> contributors == contributions.data.value
      ensures contributions.data.None? ==> contributors == old(contributors)
      ensures boq.data.Some? ==> target == Target(boq.data.value)
      ensures boq.data.None? ==> target == old(target)
    {
      if contributions.data.Some? {
        contributors := contributions.data.value;
      }
      if boq.data.Some? {
        target := Target(boq.data.value);
      }
    }

    /** `handleAddItem`. */
    method BeginCreate()
      modifies this`dialogOpen, this`editing
      ensures dialogOpen && editing == None
    {
      editing := None;
      dialogOpen := true;
    }

    /** `handleEditItem`. */
    method BeginEdit(c: Contributor)
      modifies this`dialogOpen, this`editing
      ensures dialogOpen && editing == Some(c)
    {
      editing := Some(c);
      dialogOpen := true;
    }

    /** The dialog's close callback. */
    method CloseDialog()
      modifies this`dialogOpen
      ensures !dialogOpen
    {
      dialogOpen := false;
    }

    /** `handleDeleteItem`: one delete by id; the local list loses that id's
        rows only when the gateway reports no error. */
    method DeleteItem(id: string, outcome: Outcome) returns (request: Request<Payload>)
      modifies this`contributors
      ensures request == Delete(id)
      ensures outcome.Ok? ==> contributors == Lists.Without(old(contributors), ContributorId, id)
      ensures outcome.Err? ==> contributors == old(contributors)
    {
      request := Delete(id);
      if outcome.Ok? {
        contributors := Lists.Without(contributors, ContributorId, id);
      }
    }

    /** `handleFormSubmit`: one update keyed by the edited contributor's id,
        or one insert. On success a reload is requested, the dialog closes
        and the edit target is cleared; on failure nothing changes. */
    method Submit(data: Payload, outcome: Outcome) returns (request: Request<Payload>, reload: bool)
      modifies this`dialogOpen, this`editing
      ensures old(editing).Some? ==> request == Update(old(editing).value.id, data)
      ensures old(editing).None? ==> request == Insert(data)
      ensures reload <==> outcome.Ok?
      ensures outcome.Ok? ==> !dialogOpen && editing == None
      ensures outcome.Err? ==> dialogOpen == old(dialogOpen) && editing == old(editing)
    {
      if editing.Some? {
        request := Update(editing.value.id, data);
      } else {
        request := Insert(data);
      }
      reload := outcome.Ok?;
      if outcome.Ok? {
        dialogOpen := false;
        editing := None;
      }
    }
  }
}

/** `src/components/admin/admin-progress.tsx`: the progress task manager. It
    keeps its list locally and keys every change by the task's title. */
module AdminProgress {
  import opened Wrappers
  import Lists

  /** A task: its title (the key), its completion percentage, and a free
      text target. */
  datatype ProgressItem = ProgressItem(title: string, value: int, target: string)

  function Title(t: ProgressItem): string { t.title }

  /** A completion percentage the slider can produce. */
  predicate InRange(v: int) { 0 <= v <= 100 }

  ghost predicate ValuesInRange(items: seq<ProgressItem>)
  {
    forall t :: t in items ==> InRange(t.value)
  }

  // ---------------------------------------------------------------------
  // ProgressForm
  // ---------------------------------------------------------------------

  datatype Draft = Draft(title: string, value: int, target: string)

  /** What the user does to the form before submitting it. */
  datatype Input = TitleTyped(title: string) | TargetTyped(target: string) | SliderMoved(position: int)

  /** The value a slider with min 0, max 100 and step 1 reports for a thumb
      at `position`: it never leaves its range. */
  function SliderValue(position: int): (v: int)
    ensures InRange(v)
    ensures InRange(position) ==> v == position
  {
    if position < 0 then 0 else if position > 100 then 100 else position
  }

  /** The form's initial state, with the `||` fallbacks of its `useState`
      calls. */
  function FormDefaults(item: Option<ProgressItem>): (d: Draft)
    ensures item.None? ==> d == Draft("", 0, "")
    ensures item.Some? ==> d == Draft(item.value.title, item.value.value, item.value.target)
  {
    match item
    case None => Draft("", 0, "")
    case Some(t) => Draft(OrElse(t.title, ""), OrZeroInt(t.value), OrElse(t.target, ""))
  }

  /** One input. The title field is disabled when the form edits an item,
      so typing into it changes nothing then. */
  function Apply(item: Option<ProgressItem>, d: Draft, e: Input): (r: Draft)
    ensures item.Some? ==> r.title == d.title
    ensures item.None? && e.TitleTyped? ==> r.title == e.title
    ensures e.TitleTyped? ==> r.target == d.target && r.value == d.value
    ensures e.TargetTyped? ==> r.target == e.target && r.title == d.title && r.value == d.value
    ensures e.SliderMoved? ==> r.title == d.title && r.target == d.target && r.value == SliderValue(e.position)
    ensures e.SliderMoved? ==> InRange(r.value)
    ensures InRange(d.value) ==> InRange(r.value)
  {
    match e
    case TitleTyped(s) => if item.Some? then d else d.(title := s)
    case TargetTyped(s) => d.(target := s)
    case SliderMoved(p) => d.(value := SliderValue(p))
  }

  function Run(item: Option<ProgressItem>, d: Draft, inputs: seq<Input>): Draft
    decreases |inputs|
  {
    if inputs == [] then d else Run(item, Apply(item, d, inputs[0]), inputs[1..])
  }

  /** The form's `handleSubmit`. */
  function FormSubmit(d: Draft): (t: ProgressItem)
    ensures t.title == d.title && t.value == d.value && t.target == d.target
  {
    ProgressItem(d.title, d.value, d.target)
  }

  /** The inputs marked `required` are filled in: the target always, the
      title only on a new task, because a disabled input is exempt from the
      check. The browser runs `handleSubmit` only then. */
  predicate Submittable(item: Option<ProgressItem>, d: Draft)
  {
    d.target != "" && (item.Some? || d.title != "")
  }

  /** What reaches `onSubmit` when the submit button is pressed: nothing
      while a required field is empty. */
  function Submitted(item: Option<ProgressItem>, d: Draft): (r: Option<ProgressItem>)
    ensures r.Some? <==> d.target != "" && (item.Some? || d.title != "")
    ensures r.Some? ==> r.value == FormSubmit(d)
  {
    if Submittable(item, d) then Some(FormSubmit(d)) else None
  }

  /** An untouched new-task form cannot be submitted. */
  lemma NewFormNotSubmittable()
    ensures Submitted(None, FormDefaults(None)) == None
  {
  }

  /** An untouched edit form submits the task itself, provided it has a
      target; an empty title does not block it. */
  lemma EditFormSubmitted(t: ProgressItem)
    ensures Submitted(Some(t), FormDefaults(Some(t))) == if t.target != "" then Some(t) else None
  {
  }

  /** Whatever the user does, an edit form submits the item's own title and
      a value in range (given the item's value was in range). */
  lemma {:induction false} RunOnEdit(t: ProgressItem, d: Draft, inputs: seq<Input>)
    requires d.title == t.title
    ensures Run(Some(t), d, inputs).title == t.title
    ensures InRange(d.value) ==> InRange(Run(Some(t), d, inputs).value)
    decreases |inputs|
  {
    if inputs != [] {
      RunOnEdit(t, Apply(Some(t), d, inputs[0]), inputs[1..]);
    }
  }

  /** Whatever the user does, the submitted value is in range. */
  lemma {:induction false} RunKeepsValueInRange(item: Option<ProgressItem>, d: Draft, inputs: seq<Input>)
    requires InRange(d.value)
    ensures InRange(Run(item, d, inputs).value)
    decreases |inputs|
  {
    if inputs != [] {
      RunKeepsValueInRange(item, Apply(item, d, inputs[0]), inputs[1..]);
    }
  }

  /** A new task starts at 0; an edit form starts from the item's fields. */
  lemma FormDefaultsProperties(t: ProgressItem)
    ensures FormDefaults(None).value == 0 && InRange(FormDefaults(None).value)
    ensures FormDefaults(Some(t)) == Draft(t.title, t.value, t.target)
  {
  }

  /** The title submitted by an edit form is the edited task's title, for
      every sequence of inputs. */
  lemma EditKeepsTitle(t: ProgressItem, inputs: seq<Input>)
    ensures FormSubmit(Run(Some(t), FormDefaults(Some(t)), inputs)).title == t.title
    ensures InRange(t.value) ==> InRange(FormSubmit(Run(Some(t), FormDefaults(Some(t)), inputs)).value)
  {
    FormDefaultsProperties(t);
    RunOnEdit(t, FormDefaults(Some(t)), inputs);
  }

  // ---------------------------------------------------------------------
  // The controller
  // ---------------------------------------------------------------------

  class Controller {
    var items: seq<ProgressItem>
    var dialogOpen: bool
    var editing: Option<ProgressItem>

    /** The list starts as the given initial tasks. */
    constructor (initial: seq<ProgressItem>)
      ensures items == initial && !dialogOpen && editing == None
    {
      items := initial;
      dialogOpen := false;
      editing := None;
    }

    /** `handleAddItem`. */
    method BeginCreate()
      modifies this`dialogOpen, this`editing
      ensures dialogOpen && editing == None
    {
      editing := None;
      dialogOpen := true;
    }

    /** `handleEditItem`. */
    method BeginEdit(t: ProgressItem)
      modifies this`dialogOpen, this`editing
      ensures dialogOpen && editing == Some(t)
    {
      editing := Some(t);
      dialogOpen := true;
    }

    /** The dialog's close callback. */
    method CloseDialog()
      modifies this`dialogOpen
      ensures !dialogOpen
    {
      dialogOpen := false;
    }

    /** `handleDeleteItem`: drop every task with this title. */
    method DeleteItem(title: string)
      modifies this`items
      ensures items == Lists.Without(old(items), Title, title)
      ensures ValuesInRange(old(items)) ==> ValuesInRange(items)
    {
      items := Lists.Without(items, Title, title);
    }

    /** `handleFormSubmit`: with an edit target, every task titled like it
        is replaced by `data`; otherwise `data` is appended, with no check
        for a duplicate title. The dialog closes and the target is cleared.
        The titles stay as they were when the edited data keeps the target's
        title, and values stay in range when `data`'s is. */
    method Submit(data: ProgressItem)
      modifies this
      ensures old(editing).Some? ==> items == Lists.ReplaceWhere(old(items), Title, old(editing).value.title, data)
      ensures old(editing).None? ==> items == old(items) + [data]
      ensures !dialogOpen && editing == None
      ensures old(editing).Some? && data.title == old(editing).value.title ==>
                Lists.Keys(items, Title) == Lists.Keys(old(items), Title)
      ensures ValuesInRange(old(items)) && InRange(data.value) ==> ValuesInRange(items)
    {
      if editing.Some? {
        var key := editing.value.title;
        if data.title == key {
          Lists.ReplaceKeepsKeys(items, Title, key, data);
        }
        items := Lists.ReplaceWhere(items, Title, key, data);
      } else {
        items := items + [data];
      }
      dialogOpen := false;
      editing := None;
    }
  }

  /** Delete keeps every other task, as often as before and in order. */
  lemma DeleteProperties(items: seq<ProgressItem>, title: string)
    ensures Lists.Subsequence(Lists.Without(items, Title, title), items)
    ensures forall x :: multiset(Lists.Without(items, Title, title))[x] == if x.title == title then 0 else multiset(items)[x]
  {
    Lists.WithoutIsSubsequence(items, Title, title);
    forall x ensures multiset(Lists.Without(items, Title, title))[x] == if x.title == title then 0 else multiset(items)[x] {
      Lists.WithoutCount(items, Title, title, x);
    }
  }

  /** Adding a task whose title is already present yields duplicate titles,
      and a later delete by that title removes all of them. */
  lemma DuplicateThenDelete(items: seq<ProgressItem>, data: ProgressItem)
    requires data.title in Lists.Keys(items, Title)
    ensures !Lists.DistinctKeys(items + [data], Title)
    ensures Lists.Without(items + [data], Title, data.title) == Lists.Without(items, Title, data.title)
    ensures data.title !in Lists.Keys(Lists.Without(items + [data], Title, data.title), Title)
  {
    var i :| 0 <= i < |items| && Lists.Keys(items, Title)[i] == data.title;
    assert (items + [data])[i].title == (items + [data])[|items|].title;
    Lists.WithoutAppended(items, Title, data);
    Lists.WithoutRemovesKey(items + [data], Title, data.title);
  }

  /** Editing through the form keeps the sequence of titles. */
  lemma EditThroughFormKeepsTitles(items: seq<ProgressItem>, t: ProgressItem, inputs: seq<Input>)
    ensures var edited := Lists.ReplaceWhere(items, Title, t.title, FormSubmit(Run(Some(t), FormDefaults(Some(t)), inputs)));
            |edited| == |items| && Lists.Keys(edited, Title) == Lists.Keys(items, Title)
  {
    EditKeepsTitle(t, inputs);
    Lists.ReplaceKeepsKeys(items, Title, t.title, FormSubmit(Run(Some(t), FormDefaults(Some(t)), inputs)));
  }
}

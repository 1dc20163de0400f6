/**
 * The relationship-map tab (`MapTab`): a list of people seeded with two entries,
 * and an entry form whose only editable field is the name. `addPerson` appends the
 * form with a fresh id when the trimmed name is non-empty, then resets the form.
 * The id (`Date.now()` in the client) is a parameter.
 */
module RelationMap {
  import opened JsString

  datatype Person = Person(id: int, name: string, category: string, closeness: string, memo: string)

  datatype Form = Form(name: string, category: string, closeness: string, memo: string)

  /** The form's initial and reset value. */
  const BlankForm: Form := Form("", "友人", "普通", "")

  const SeedPeople: seq<Person> := [
    Person(1, "田中教授", "教授・先生", "少し遠い", "質問したいけど緊張する"),
    Person(2, "佐藤先輩", "先輩", "普通", "過去問の話を聞きたい")
  ]

  datatype MapState = MapState(people: seq<Person>, form: Form, showForm: bool)

  function InitialMap(): MapState {
    MapState(SeedPeople, BlankForm, false)
  }

  /** `{...form, id}`: the form's fields as entered (the name is not trimmed) plus the id. */
  function FromForm(f: Form, id: int): Person {
    Person(id, f.name, f.category, f.closeness, f.memo)
  }

  /**
   * `addPerson`: with a blank name nothing changes; otherwise the form becomes one new
   * entry at the end of the list, the form is reset and closed.
   */
  function AddPerson(st: MapState, id: int): (r: MapState)
    ensures Blank(st.form.name) ==> r == st
    ensures !Blank(st.form.name) ==>
              && |r.people| == |st.people| + 1
              && r.people[..|st.people|] == st.people
              && r.people[|st.people|] == Person(id, st.form.name, st.form.category, st.form.closeness, st.form.memo)
              && r.form == BlankForm
              && !r.showForm
  {
    if Trim(st.form.name) == "" then st
    else MapState(st.people + [FromForm(st.form, id)], BlankForm, false)
  }

  /** What the user can do to the list: type a name, open or cancel the form, or add with a given id. */
  datatype MapEvent = TypeName(name: string) | OpenForm | CancelForm | Add(id: int)

  function MapStep(st: MapState, e: MapEvent): MapState {
    match e
    case TypeName(n) => st.(form := st.form.(name := n))
    case OpenForm => st.(showForm := true)
    case CancelForm => st.(showForm := false)
    case Add(id) => AddPerson(st, id)
  }

  function MapRun(st: MapState, events: seq<MapEvent>): MapState
    decreases |events|
  {
    if events == [] then st else MapRun(MapStep(st, events[0]), events[1..])
  }

  function Ids(people: seq<Person>): seq<int> {
    seq(|people|, i requires 0 <= i < |people| => people[i].id)
  }

  /** The ids a run adds, in order: those of the Add events whose form had a non-blank name. */
  function AddedIds(st: MapState, events: seq<MapEvent>): seq<int>
    decreases |events|
  {
    if events == [] then []
    else
      (if events[0].Add? && !Blank(st.form.name) then [events[0].id] else [])
      + AddedIds(MapStep(st, events[0]), events[1..])
  }

  lemma IdsAppend(people: seq<Person>, p: Person)
    ensures Ids(people + [p]) == Ids(people) + [p.id]
  {
  }

  lemma IdsRegroup(a: seq<int>, x: int, b: seq<int>)
    ensures a + ([x] + b) == (a + [x]) + b
  {
  }

  /** No entry is ever removed, changed or reordered: the list before a run is a prefix of the list after it. */
  lemma {:induction false} RunKeepsPrefix(st: MapState, events: seq<MapEvent>)
    ensures |st.people| <= |MapRun(st, events).people|
    ensures MapRun(st, events).people[..|st.people|] == st.people
    decreases |events|
  {
    if events != [] {
      var next := MapStep(st, events[0]);
      RunKeepsPrefix(next, events[1..]);
      var fin := MapRun(next, events[1..]);
      assert next.people[..|st.people|] == st.people;
      assert fin.people[..|st.people|] == fin.people[..|next.people|][..|st.people|];
    }
  }

  /** New entries arrive at the end carrying the ids of the accepted Add events, in order. */
  lemma {:induction false} RunAddsIds(st: MapState, events: seq<MapEvent>)
    ensures Ids(MapRun(st, events).people) == Ids(st.people) + AddedIds(st, events)
    decreases |events|
  {
    if events != [] {
      var next := MapStep(st, events[0]);
      var rest := AddedIds(next, events[1..]);
      RunAddsIds(next, events[1..]);
      if events[0].Add? && !Blank(st.form.name) {
        IdsAppend(st.people, FromForm(st.form, events[0].id));
        IdsRegroup(Ids(st.people), events[0].id, rest);
      } else {
        assert next.people == st.people;
      }
    }
  }

  /**
   * Every entry after the two seeds has a non-blank name and the form's default
   * category, closeness and memo: the form offers no way to change those three.
   */
  ghost predicate Consistent(st: MapState) {
    && |st.people| >= |SeedPeople|
    && st.people[..|SeedPeople|] == SeedPeople
    && st.form.category == BlankForm.category
    && st.form.closeness == BlankForm.closeness
    && st.form.memo == BlankForm.memo
    && forall i :: |SeedPeople| <= i < |st.people| ==>
         && !Blank(st.people[i].name)
         && st.people[i].category == BlankForm.category
         && st.people[i].closeness == BlankForm.closeness
         && st.people[i].memo == BlankForm.memo
  }

  lemma StepKeepsConsistent(st: MapState, e: MapEvent)
    requires Consistent(st)
    ensures Consistent(MapStep(st, e))
  {
    if e.Add? && !Blank(st.form.name) {
      var r := MapStep(st, e);
      var n := |st.people|;
      assert r.people == st.people + [FromForm(st.form, e.id)];
      assert r.people[..|SeedPeople|] == st.people[..|SeedPeople|];
      forall i | |SeedPeople| <= i < |r.people|
        ensures && !Blank(r.people[i].name)
                && r.people[i].category == BlankForm.category
                && r.people[i].closeness == BlankForm.closeness
                && r.people[i].memo == BlankForm.memo
      {
        if i < n {
          assert r.people[i] == st.people[i];
        }
      }
    }
  }

  lemma {:induction false} RunKeepsConsistent(st: MapState, events: seq<MapEvent>)
    requires Consistent(st)
    ensures Consistent(MapRun(st, events))
    decreases |events|
  {
    if events != [] {
      StepKeepsConsistent(st, events[0]);
      RunKeepsConsistent(MapStep(st, events[0]), events[1..]);
    }
  }

  lemma InitialMapIsConsistent()
    ensures Consistent(InitialMap())
  {
  }
}

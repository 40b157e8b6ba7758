/**
 The profile manager form: the list of stored profiles, the selected one, the
 fields that show it, and the box that makes it the default.
 */
module Editor {
  import opened Text
  import opened Decimal
  import opened Profiles

  /** The form. `rows` are the list's lines; the fields are enabled and disabled together. */
  datatype Form = Form(
    profiles: seq<ProfileData>,
    rows: seq<Bytes>,
    selected: int,
    fields: Fields)

  datatype Fields = Fields(
    enabled: bool,        // the text fields, the save and the delete button
    name: Bytes,
    address: Bytes,
    password: Bytes,
    port: Bytes,
    boxChecked: bool,
    boxEnabled: bool)

  const NONE: Bytes := "None"

  const BLANK := Fields(false, [], [], [], [], false, false)

  const DEFAULT_MARK: Bytes := " (Default)"
  const NEW_PROFILE: Bytes := "New Profile "

  function Label(p: ProfileData): Bytes { if p.isDefault then p.name + DEFAULT_MARK else p.name }

  function Labels(ps: seq<ProfileData>): (r: seq<Bytes>)
    ensures |r| == |ps| && forall i :: 0 <= i < |ps| ==> r[i] == Label(ps[i])
  {
    seq(|ps|, i requires 0 <= i < |ps| => Label(ps[i]))
  }

  /** `IsDefaultProfileSelected`. */
  predicate HasDefault(ps: seq<ProfileData>) { exists i :: 0 <= i < |ps| && ps[i].isDefault }

  function PortText(port: int32): Bytes { if port != 0 then Print(port) else [] }

  function Filled(ps: seq<ProfileData>, p: ProfileData): Fields {
    Fields(true, p.name, p.address, p.password, PortText(p.port), p.isDefault, p.isDefault || !HasDefault(ps))
  }

  function Stored(f: Form, ps: seq<ProfileData>): Form { f.(profiles := ps, rows := Labels(ps)) }

  function Selected(f: Form, i: int): Form
    requires 0 <= i < |f.profiles|
  {
    f.(selected := i, fields := Filled(f.profiles, f.profiles[i]))
  }

  function NewProfile(f: Form): ProfileData {
    ProfileData(NEW_PROFILE + Print(|f.rows| + 1), [], [], 0, false)
  }

  /** Save `ps`, and show what a load then finds. */
  function SavedAndLoaded(f: Form, ps: seq<ProfileData>, o: Saving): Form { Stored(f, AfterSaving(o, f.profiles, ps)) }

  function Added(f: Form, o: Saving): Form
    requires AddIsSafe(f, o)
  {
    var g := SavedAndLoaded(f, f.profiles + [NewProfile(f)], o);
    if f.selected != -1 then Selected(g, f.selected) else g
  }

  function Without(ps: seq<ProfileData>, i: int): seq<ProfileData>
    requires 0 <= i < |ps|
  {
    ps[..i] + ps[i + 1..]
  }

  /** The selected profile goes and the fields are blanked. */
  function Dropped(f: Form, o: Saving): Form
    requires 0 <= f.selected < |f.profiles|
  {
    SavedAndLoaded(f.(fields := BLANK), Without(f.profiles, f.selected), o)
  }

  /** Then the profile before the removed one is shown, if any is left. */
  function Neighbour(f: Form): Form
    requires f.profiles != [] ==> 0 <= f.selected <= |f.profiles|
  {
    if f.profiles == [] then f else Selected(f, if f.selected != 0 then f.selected - 1 else 0)
  }

  function Deleted(f: Form, o: Saving): Form
    requires 0 <= f.selected < |f.profiles|
  {
    Neighbour(Dropped(f, o))
  }

  /** The fields as a profile; the reserved name is not taken over. */
  function Edited(p: ProfileData, x: Fields): ProfileData {
    ProfileData(if x.name != NONE then x.name else p.name, x.address, x.password, ToInt(x.port), x.boxChecked)
  }

  function SavedBack(f: Form, o: Saving): Form
    requires 0 <= f.selected < |f.profiles| && o != Emptied
  {
    var g := SavedAndLoaded(f, f.profiles[f.selected := Edited(f.profiles[f.selected], f.fields)], o);
    Selected(g, f.selected)
  }

  // ---- what the events do, profile by profile ----

  /** The port field: empty for no port, and otherwise a number that reads back. */
  predicate ReadsAsPort(text: Bytes, port: int32) { if port == 0 then text == [] else ToInt(text) == port }

  /** The selected profile's own name, address, password, port and mark; the box is free if nobody else has the mark. */
  predicate ShowsProfile(x: Fields, ps: seq<ProfileData>, i: int)
    requires 0 <= i < |ps|
  {
    && x.enabled && x.name == ps[i].name && x.address == ps[i].address && x.password == ps[i].password
    && ReadsAsPort(x.port, ps[i].port) && x.boxChecked == ps[i].isDefault
    && (x.boxEnabled <==> ps[i].isDefault || forall j :: 0 <= j < |ps| ==> !ps[j].isDefault)
  }

  lemma SelectedShowsProfile(f: Form, i: int)
    requires 0 <= i < |f.profiles|
    ensures ShowsProfile(Selected(f, i).fields, f.profiles, i) && Selected(f, i).selected == i
  {
    ToIntOfPrint(f.profiles[i].port);
  }

  /** Each row is the name of its profile, followed by the mark if it is the default. */
  lemma RowsNameProfiles(ps: seq<ProfileData>, i: nat)
    requires i < |ps|
    ensures var row, name := Labels(ps)[i], ps[i].name;
            |Labels(ps)| == |ps| && name <= row && row[|name|..] == if ps[i].isDefault then " (Default)" else ""
  {
  }

  /**
   Deleting takes the selected profile and no other: those before it keep their place,
   those behind it move up by one. The profile before it is shown, or the first, or, if
   none is left, nothing.
   */
  lemma DeletedIsTheSelected(f: Form)
    requires 0 <= f.selected < |f.profiles|
    ensures var g := Deleted(f, Written);
            && |g.profiles| == |f.profiles| - 1 == |g.rows|
            && (forall i :: 0 <= i < f.selected ==> g.profiles[i] == f.profiles[i])
            && (forall i :: f.selected <= i < |g.profiles| ==> g.profiles[i] == f.profiles[i + 1])
            && (if g.profiles == [] then g.fields == BLANK
                else g.selected == (if f.selected == 0 then 0 else f.selected - 1)
                     && ShowsProfile(g.fields, g.profiles, g.selected))
  {
    var d := Dropped(f, Written);
    if d.profiles != [] {
      SelectedShowsProfile(d, if f.selected != 0 then f.selected - 1 else 0);
    }
  }

  /** Adding puts one profile at the end: numbered, empty and not the default. The others and the selection stay. */
  lemma AddedIsLast(f: Form)
    requires AddIsSafe(f, Written)
    ensures var g := Added(f, Written); var n := |f.profiles|;
            && |g.profiles| == n + 1 == |g.rows|
            && (forall i :: 0 <= i < n ==> g.profiles[i] == f.profiles[i])
            && g.profiles[n].name == "New Profile " + Print(|f.rows| + 1)
            && g.profiles[n].address == [] && g.profiles[n].password == []
            && g.profiles[n].port == 0 && !g.profiles[n].isDefault
            && g.selected == f.selected
            && (f.selected != -1 ==> ShowsProfile(g.fields, g.profiles, g.selected))
  {
    if f.selected != -1 {
      SelectedShowsProfile(Stored(f, f.profiles + [NewProfile(f)]), f.selected);
    }
  }

  /**
   Saving puts what was typed in the selected profile, and in no other; the name None
   leaves the old name. The form shows the profile again.
   */
  lemma SavedIsTheSelected(f: Form)
    requires 0 <= f.selected < |f.profiles|
    ensures var g := SavedBack(f, Written); var n := f.selected;
            && |g.profiles| == |f.profiles| == |g.rows| && g.selected == n
            && (forall i :: 0 <= i < |f.profiles| && i != n ==> g.profiles[i] == f.profiles[i])
            && g.profiles[n].name == (if f.fields.name == "None" then f.profiles[n].name else f.fields.name)
            && g.profiles[n].address == f.fields.address && g.profiles[n].password == f.fields.password
            && g.profiles[n].port == ToInt(f.fields.port) && g.profiles[n].isDefault == f.fields.boxChecked
            && ShowsProfile(g.fields, g.profiles, n)
  {
    var ps := f.profiles[f.selected := Edited(f.profiles[f.selected], f.fields)];
    SelectedShowsProfile(Stored(f, ps), f.selected);
  }

  /** A save that does nothing to the file leaves the profiles; one that loses the file leaves none. */
  lemma FailedSaveShowsStore(f: Form, ps: seq<ProfileData>)
    ensures SavedAndLoaded(f, ps, Kept).profiles == f.profiles && SavedAndLoaded(f, ps, Emptied).profiles == []
  {
  }

  // ---- events ----

  /** What the user does; the buttons that save, with what comes of the save. */
  datatype Event =
    | Add(o: Saving)
    | Delete(o: Saving)
    | Save(o: Saving)
    | Select(i: nat)
    | Toggle
    | Edit(name: Bytes, address: Bytes, password: Bytes, port: Bytes)

  /** What the form lets the user do: buttons, fields and the box only while they are enabled. */
  predicate Offers(f: Form, e: Event) {
    match e
    case Add(_) => true
    case Delete(_) => f.fields.enabled
    case Save(_) => f.fields.enabled
    case Select(i) => i < |f.rows|
    case Toggle => f.fields.boxEnabled
    case Edit(_, _, _, _) => f.fields.enabled
  }

  /** A new profile can be added unless the selected row would be gone after the load. */
  predicate AddIsSafe(f: Form, o: Saving) {
    || f.selected == -1
    || (o != Emptied && 0 <= f.selected < |f.profiles| + if o == Written then 1 else 0)
  }

  /** The condition on events: the store has not lost the row that will be selected again. */
  predicate StoreAllows(f: Form, e: Event) {
    match e
    case Add(o) => AddIsSafe(f, o)
    case Save(o) => o != Emptied
    case _ => true
  }

  /** The row the event selects at its end, if any, and how many profiles there are by then. */
  function RowWanted(f: Form, e: Event): (int, int)
    requires InRange(f) && Offers(f, e)
  {
    match e
    case Add(o) => (f.selected, |AfterSaving(o, f.profiles, f.profiles + [NewProfile(f)])|)
    case Delete(o) =>
      var n := |AfterSaving(o, f.profiles, Without(f.profiles, f.selected))|;
      (if n == 0 then -1 else if f.selected != 0 then f.selected - 1 else 0, n)
    case Save(o) =>
      var n := |AfterSaving(o, f.profiles, f.profiles[f.selected := Edited(f.profiles[f.selected], f.fields)])|;
      (f.selected, n)
    case Select(i) => (i, |f.profiles|)
    case _ => (-1, 0)
  }

  /**
   The condition is exact: the `at` and the `item` at the end of an event are in range
   if and only if the store allows the event.
   */
  lemma InRangeIffStoreAllows(f: Form, e: Event)
    requires InRange(f) && Offers(f, e)
    ensures var (row, n) := RowWanted(f, e); (row == -1 || 0 <= row < n) <==> StoreAllows(f, e)
  {
  }

  function After(f: Form, e: Event): Form
    requires InRange(f) && Offers(f, e) && StoreAllows(f, e)
  {
    match e
    case Add(o) => Added(f, o)
    case Delete(o) => Deleted(f, o)
    case Save(o) => SavedBack(f, o)
    case Select(i) => Selected(f, i)
    case Toggle => f.(fields := f.fields.(boxChecked := !f.fields.boxChecked))
    case Edit(name, address, password, port) =>
      f.(fields := f.fields.(name := name, address := address, password := password, port := port))
  }

  /** `frmProfileManager`'s constructor, over what the store holds. */
  function Opened(ps: seq<ProfileData>): (g: Form)
    ensures AtMostOneDefault(ps) && NoneIsReserved(ps) ==> Inv(g)
  {
    var f := Stored(Form([], [], -1, BLANK), ps);
    if ps == [] then f else Selected(f, 0)
  }

  /** The form opens on the first stored profile, or blank. */
  lemma OpenedShowsFirst(ps: seq<ProfileData>)
    ensures var f := Opened(ps);
            && f.profiles == ps && |f.rows| == |ps|
            && (if ps == [] then f.fields == BLANK && f.selected == -1
                else f.selected == 0 && ShowsProfile(f.fields, ps, 0))
  {
    if ps != [] {
      SelectedShowsProfile(Stored(Form([], [], -1, BLANK), ps), 0);
    }
  }

  /** Typing changes the four text fields, each its own, and the box its mark; nothing is stored by that. */
  lemma TypingStoresNothing(f: Form, name: Bytes, address: Bytes, password: Bytes, port: Bytes)
    requires InRange(f)
    ensures Offers(f, Edit(name, address, password, port)) ==>
              var g := After(f, Edit(name, address, password, port));
              && g.profiles == f.profiles && g.rows == f.rows && g.selected == f.selected
              && g.fields.name == name && g.fields.address == address
              && g.fields.password == password && g.fields.port == port
              && g.fields.boxChecked == f.fields.boxChecked && g.fields.boxEnabled == f.fields.boxEnabled
              && g.fields.enabled
    ensures Offers(f, Toggle) ==>
              var g := After(f, Toggle);
              && g.profiles == f.profiles && g.rows == f.rows && g.selected == f.selected
              && g.fields.boxChecked != f.fields.boxChecked
              && g.fields.(boxChecked := f.fields.boxChecked) == f.fields
  {
  }

  // ---- what every event keeps ----

  /** Every `at` and `remove` of the form is in range. */
  predicate InRange(f: Form) {
    && |f.rows| == |f.profiles|
    && (f.fields.enabled ==> 0 <= f.selected < |f.profiles|)
    && f.selected >= -1
    && (f.fields.boxEnabled || f.fields.boxChecked ==> f.fields.enabled)
  }

  predicate AtMostOneDefault(ps: seq<ProfileData>) {
    forall i, j :: 0 <= i < |ps| && 0 <= j < |ps| && ps[i].isDefault && ps[j].isDefault ==> i == j
  }

  /** A box that is checked, or could be, means no other profile is the default. */
  predicate BoxIsFree(f: Form) {
    f.fields.boxEnabled || f.fields.boxChecked ==>
      forall i :: 0 <= i < |f.profiles| && i != f.selected ==> !f.profiles[i].isDefault
  }

  predicate NoneIsReserved(ps: seq<ProfileData>) {
    forall i :: 0 <= i < |ps| ==> ps[i].name != NONE
  }

  predicate Inv(f: Form) {
    && InRange(f) && f.rows == Labels(f.profiles)
    && AtMostOneDefault(f.profiles) && BoxIsFree(f) && NoneIsReserved(f.profiles)
  }

  lemma SelectedKeeps(f: Form, i: int)
    requires 0 <= i < |f.profiles| && f.rows == Labels(f.profiles)
    requires AtMostOneDefault(f.profiles) && NoneIsReserved(f.profiles)
    ensures Inv(Selected(f, i))
  {
  }

  lemma NewProfileIsPlain(f: Form)
    ensures NewProfile(f).name != NONE && !NewProfile(f).isDefault
  {
    assert NewProfile(f).name[0] == 'N' && NewProfile(f).name[1] == 'e';
    assert NONE[1] == 'o';
  }

  lemma AddKeeps(f: Form, o: Saving)
    requires Inv(f) && AddIsSafe(f, o)
    ensures Inv(Added(f, o))
  {
    NewProfileIsPlain(f);
    var ps := AfterSaving(o, f.profiles, f.profiles + [NewProfile(f)]);
    assert AtMostOneDefault(ps) && NoneIsReserved(ps);
    if f.selected != -1 {
      SelectedKeeps(Stored(f, ps), f.selected);
    } else {
      assert !f.fields.enabled;
    }
  }

  lemma RemovalKeeps(ps: seq<ProfileData>, n: nat)
    requires n < |ps| && AtMostOneDefault(ps) && NoneIsReserved(ps)
    ensures AtMostOneDefault(Without(ps, n)) && NoneIsReserved(Without(ps, n))
  {
    var qs := Without(ps, n);
    assert forall i :: 0 <= i < |qs| ==> qs[i] == ps[if i < n then i else i + 1];
  }

  lemma DeleteKeeps(f: Form, o: Saving)
    requires Inv(f) && f.fields.enabled
    ensures Inv(Deleted(f, o))
  {
    var n := f.selected;
    var ps := AfterSaving(o, f.profiles, Without(f.profiles, n));
    RemovalKeeps(f.profiles, n);
    if ps != [] {
      SelectedKeeps(Stored(f, ps).(fields := BLANK), if n != 0 then n - 1 else 0);
    }
  }

  lemma SaveKeeps(f: Form, o: Saving)
    requires Inv(f) && f.fields.enabled && o != Emptied
    ensures Inv(SavedBack(f, o))
  {
    var ps := AfterSaving(o, f.profiles, f.profiles[f.selected := Edited(f.profiles[f.selected], f.fields)]);
    assert AtMostOneDefault(ps) && NoneIsReserved(ps);
    SelectedKeeps(Stored(f, ps), f.selected);
  }

  lemma EventKeepsInv(f: Form, e: Event)
    requires Inv(f) && Offers(f, e) && StoreAllows(f, e)
    ensures Inv(After(f, e))
  {
    match e {
      case Add(o) => AddKeeps(f, o);
      case Delete(o) => DeleteKeeps(f, o);
      case Save(o) => SaveKeeps(f, o);
      case Select(i) => SelectedKeeps(f, i);
      case Toggle =>
      case Edit(_, _, _, _) =>
    }
  }

  predicate SaveSucceeds(e: Event) {
    match e
    case Add(o) => o == Written
    case Delete(o) => o == Written
    case Save(o) => o == Written
    case _ => true
  }

  /** The row selected last is one of the list, or the first behind it. */
  predicate RowIsNear(f: Form) { f.selected <= |f.profiles| }

  /** With a good key and a file that can be written, every event the form offers is allowed ... */
  lemma WrittenIsAllowed(f: Form, e: Event)
    requires InRange(f) && RowIsNear(f) && Offers(f, e) && SaveSucceeds(e)
    ensures StoreAllows(f, e)
  {
  }

  lemma DeletedStaysNear(f: Form)
    requires 0 <= f.selected < |f.profiles|
    ensures RowIsNear(Deleted(f, Written))
  {
    assert |Dropped(f, Written).profiles| == |f.profiles| - 1;
  }

  lemma SavedStaysNear(f: Form)
    requires 0 <= f.selected < |f.profiles|
    ensures RowIsNear(SavedBack(f, Written))
  {
    assert |SavedBack(f, Written).profiles| == |f.profiles|;
  }

  /** ... and leaves the form where the next one is. */
  lemma WrittenStaysNear(f: Form, e: Event)
    requires InRange(f) && RowIsNear(f) && Offers(f, e) && SaveSucceeds(e) && StoreAllows(f, e)
    ensures RowIsNear(After(f, e))
  {
    if e.Delete? {
      DeletedStaysNear(f);
    } else if e.Save? {
      SavedStaysNear(f);
    }
  }

  /** The user's events, each offered by the form and allowed by the store when it happens. */
  predicate IsSession(f: Form, events: seq<Event>)
    requires Inv(f)
    decreases |events|
  {
    events == [] ||
    (Offers(f, events[0]) && StoreAllows(f, events[0]) && (EventKeepsInv(f, events[0]); IsSession(After(f, events[0]), events[1..])))
  }

  function Run(f: Form, events: seq<Event>): Form
    requires Inv(f) && IsSession(f, events)
    decreases |events|
  {
    if events == [] then f
    else
      EventKeepsInv(f, events[0]);
      Run(After(f, events[0]), events[1..])
  }

  lemma {:induction false} SessionKeepsInv(f: Form, events: seq<Event>)
    requires Inv(f) && IsSession(f, events)
    ensures Inv(Run(f, events))
    decreases |events|
  {
    if events != [] {
      EventKeepsInv(f, events[0]);
      SessionKeepsInv(After(f, events[0]), events[1..]);
    }
  }

  /**
   From a store with at most one default and no profile named None, any session of
   the form leaves a store with at most one default and no profile named None, and
   what is enabled always has a profile to act on.
   */
  lemma AtMostOneDefaultForever(ps: seq<ProfileData>, events: seq<Event>)
    requires AtMostOneDefault(ps) && NoneIsReserved(ps)
    requires IsSession(Opened(ps), events)
    ensures var g := Run(Opened(ps), events);
            && AtMostOneDefault(g.profiles) && NoneIsReserved(g.profiles)
            && (g.fields.enabled ==> 0 <= g.selected < |g.profiles|)
  {
    SessionKeepsInv(Opened(ps), events);
  }

  // ---- the object ----

  class ProfileEditor {
    const manager: ProfileManager
    ghost var profiles: seq<ProfileData>   // what the stored objects hold
    var storedProfiles: seq<Profile>
    var rows: seq<Bytes>
    var selectedProfileIndex: int
    var fields: Fields

    ghost function View(): Form
      reads this
    {
      Form(profiles, rows, selectedProfileIndex, fields)
    }

    /** The form's objects are distinct and hold `profiles`, which is what a load shows. */
    ghost predicate Valid()
      reads this, manager, manager.crypto, storedProfiles
    {
      Distinct(storedProfiles) && Shows(storedProfiles, profiles) && Holds(manager, profiles)
    }

    constructor (manager: ProfileManager, ghost ps: seq<ProfileData>)
      requires Holds(manager, ps)
      modifies manager.crypto
      ensures this.manager == manager && fresh(storedProfiles)
      ensures Valid() && View() == Opened(ps)
    {
      this.manager := manager;
      storedProfiles, rows, selectedProfileIndex, fields, profiles := [], [], -1, BLANK, [];
      new;
      LoadProfiles(ps);
      if |rows| > 0 {
        LoadProfile(0);
      }
    }

    /** One line of the list. */
    method RowText(p: Profile) returns (text: Bytes)
      ensures text == Label(p.Value())
    {
      text := if p.isDefault then p.name + DEFAULT_MARK else p.name;
    }

    method FillRows(ghost ps: seq<ProfileData>)
      requires Shows(storedProfiles, ps)
      modifies `rows
      ensures rows == Labels(ps)
    {
      rows := [];
      var i := 0;
      while i < |storedProfiles|
        invariant 0 <= i <= |storedProfiles| && |rows| == i
        invariant Shows(storedProfiles, ps)
        invariant forall j :: 0 <= j < i ==> rows[j] == Label(ps[j])
      {
        var text := RowText(storedProfiles[i]);
        rows := rows + [text];
        i := i + 1;
      }
    }

    /** Reload everything from the file. */
    method LoadProfiles(ghost ps: seq<ProfileData>)
      requires Holds(manager, ps)
      modifies this, manager.crypto
      ensures View() == old(Stored(View(), ps))
      ensures Valid() && fresh(storedProfiles)
    {
      storedProfiles := LoadStored(manager, ps);
      profiles := ps;
      FillRows(ps);
    }

    method IsDefaultProfileSelected() returns (r: bool)
      requires Shows(storedProfiles, profiles)
      ensures r == HasDefault(profiles)
    {
      for i := 0 to |storedProfiles|
        invariant forall j :: 0 <= j < i ==> !profiles[j].isDefault
      {
        if storedProfiles[i].isDefault {
          assert profiles[i].isDefault;
          return true;
        }
      }
      return false;
    }

    method LoadProfile(index: int)
      requires Valid() && 0 <= index < |storedProfiles|
      modifies `fields, `selectedProfileIndex
      ensures Valid() && View() == old(Selected(View(), index))
    {
      var currentProfile := storedProfiles[index];
      var boxEnabled := true;
      if !currentProfile.isDefault {
        var taken := IsDefaultProfileSelected();
        boxEnabled := !taken;
      }
      fields := Fields(true, currentProfile.name, currentProfile.address, currentProfile.password,
                       PortText(currentProfile.port), currentProfile.isDefault, boxEnabled);
      selectedProfileIndex := index;
    }

    /** Save the objects and reload them; the fields are blanked in between if asked. */
    method Refresh(ghost ps: seq<ProfileData>, blank: bool)
      requires Holds(manager, profiles) && Shows(storedProfiles, ps)
      modifies this, manager, manager.crypto
      ensures Valid() && fresh(storedProfiles)
      ensures View() == old(SavedAndLoaded(if blank then View().(fields := BLANK) else View(), ps, SavingOf(manager)))
    {
      ghost var shown := AfterSaving(SavingOf(manager), profiles, ps);
      SaveStored(manager, storedProfiles, profiles, ps);
      if blank {
        fields := BLANK;
      }
      LoadProfiles(shown);
    }

    /** The new object, at the end of the list: lines 59-60. */
    method AppendNew(ghost ps: seq<ProfileData>)
      requires Shows(storedProfiles, profiles) && ps == profiles + [NewProfile(View())]
      modifies `storedProfiles
      ensures Shows(storedProfiles, ps)
    {
      var newProfile := new Profile(NEW_PROFILE + Print(|rows| + 1), "", "", 0, false);
      storedProfiles := storedProfiles + [newProfile];
    }

    method AddNewProfile()
      requires Valid() && InRange(View()) && AddIsSafe(View(), SavingOf(manager))
      modifies this, manager, manager.crypto
      ensures Valid() && View() == old(Added(View(), SavingOf(manager)))
      ensures fresh(storedProfiles)
    {
      StoreNew();
      if selectedProfileIndex != -1 {
        LoadProfile(selectedProfileIndex);
      }
    }

    /** Append the new profile here and in the file: lines 59-62. */
    method StoreNew()
      requires Valid()
      modifies this, manager, manager.crypto
      ensures Valid() && fresh(storedProfiles)
      ensures View() == old(SavedAndLoaded(View(), profiles + [NewProfile(View())], SavingOf(manager)))
    {
      ghost var ps := profiles + [NewProfile(View())];
      AppendNew(ps);
      Refresh(ps, false);
    }

    /** `storedProfiles.remove(selectedProfileIndex)`. */
    method RemoveSelected(ghost ps: seq<ProfileData>)
      requires Shows(storedProfiles, profiles) && 0 <= selectedProfileIndex < |storedProfiles|
      requires ps == Without(profiles, selectedProfileIndex)
      modifies `storedProfiles
      ensures Shows(storedProfiles, ps)
    {
      var n := selectedProfileIndex;
      storedProfiles := storedProfiles[..n] + storedProfiles[n + 1..];
    }

    method DeleteProfile()
      requires Valid() && InRange(View()) && fields.enabled
      modifies this, manager, manager.crypto
      ensures Valid() && View() == old(Deleted(View(), SavingOf(manager)))
      ensures fresh(storedProfiles)
    {
      DropSelected();
      SelectNeighbour();
    }

    /** Remove the selected profile here and in the file, and blank the fields: lines 67-76. */
    method DropSelected()
      requires Valid() && InRange(View()) && fields.enabled
      modifies this, manager, manager.crypto
      ensures Valid() && fresh(storedProfiles)
      ensures View() == old(Dropped(View(), SavingOf(manager)))
    {
      ghost var ps := Without(profiles, selectedProfileIndex);
      RemoveSelected(ps);
      Refresh(ps, true);
    }

    /** After a removal the profile before the removed one is shown, if any is left: lines 78-83. */
    method SelectNeighbour()
      requires Valid() && |rows| == |profiles|
      requires profiles != [] ==> 0 <= selectedProfileIndex <= |profiles|
      modifies `fields, `selectedProfileIndex
      ensures Valid()
      ensures View() == old(Neighbour(View()))
    {
      if |rows| > 0 {
        LoadProfile(if selectedProfileIndex != 0 then selectedProfileIndex - 1 else 0);
      }
    }

    /** The fields go into the selected object: lines 137-142. */
    method StoreFields(currentProfile: Profile)
      modifies currentProfile
      ensures currentProfile.Value() == old(Edited(currentProfile.Value(), fields))
    {
      currentProfile.name := if fields.name != NONE then fields.name else currentProfile.name;
      currentProfile.address := fields.address;
      currentProfile.password := fields.password;
      currentProfile.port := ToInt(fields.port);
      currentProfile.isDefault := fields.boxChecked;
    }

    method SaveProfile()
      requires Valid() && InRange(View()) && fields.enabled && SavingOf(manager) != Emptied
      modifies this, manager, manager.crypto, storedProfiles
      ensures Valid() && View() == old(SavedBack(View(), SavingOf(manager)))
      ensures fresh(storedProfiles)
    {
      var n := selectedProfileIndex;
      ghost var ps := profiles[n := Edited(profiles[n], fields)];
      StoreFields(storedProfiles[n]);
      assert Shows(storedProfiles, ps);
      Refresh(ps, true);
      LoadProfile(selectedProfileIndex);
    }
  }
}

/** The list of profiles on the main form, with its sentinel entry. */
module ProfileList {
  import opened Text
  import opened Decimal
  import opened Profiles
  import opened Editor

  /** The connection fields of the main form. */
  datatype Login = Login(host: Bytes, password: Bytes, port: Bytes)

  const NO_LOGIN := Login([], [], [])

  function LoginOf(p: ProfileData): Login { Login(p.address, p.password, PortText(p.port)) }

  /** The list: one entry for each stored profile, then the sentinel. */
  function Items(ps: seq<ProfileData>): seq<Bytes> { Labels(ps) + [NONE] }

  /** `LoadSelectedProfile(index)`, told by the text of the entry. */
  function Chosen(items: seq<Bytes>, ps: seq<ProfileData>, index: int, was: Login): Login
    requires -1 <= index < |items| && index <= |ps|
    requires index == |ps| ==> items[index] == NONE
  {
    if index == -1 then was
    else if items[index] != NONE then LoginOf(ps[index])
    else NO_LOGIN
  }

  /** An entry reads None exactly when it is the sentinel or a profile of that name that is not the default. */
  lemma OnlyTheSentinelReadsNone(ps: seq<ProfileData>, i: nat)
    requires i <= |ps|
    ensures Items(ps)[i] == NONE <==> i == |ps| || (ps[i].name == NONE && !ps[i].isDefault)
  {
    if i < |ps| && ps[i].isDefault {
      var text := ps[i].name + DEFAULT_MARK;
      assert text[|text| - 1] == DEFAULT_MARK[|DEFAULT_MARK| - 1] == ')';
      assert NONE[3] == 'e';
    }
  }

  /** With the name reserved, choosing a stored profile loads it, and the last entry clears the fields. */
  lemma ChoosingLoads(ps: seq<ProfileData>, i: nat, was: Login)
    requires NoneIsReserved(ps) && i <= |ps|
    ensures Chosen(Items(ps), ps, i, was) == if i < |ps| then LoginOf(ps[i]) else NO_LOGIN
  {
    OnlyTheSentinelReadsNone(ps, i);
  }

  /** And the login shown is the profile's own address, password and port, each in its field. */
  lemma ChoosingShowsLogin(ps: seq<ProfileData>, i: nat, was: Login)
    requires NoneIsReserved(ps) && i < |ps|
    ensures var login := Chosen(Items(ps), ps, i, was);
            login.host == ps[i].address && login.password == ps[i].password && ReadsAsPort(login.port, ps[i].port)
  {
    ChoosingLoads(ps, i, was);
    ToIntOfPrint(ps[i].port);
  }

  /** After any session of the profile form, the main form's list can be trusted. */
  lemma ChoosingLoadsAfterEditing(ps: seq<ProfileData>, events: seq<Event>, i: nat, was: Login)
    requires AtMostOneDefault(ps) && NoneIsReserved(ps)
    requires IsSession(Opened(ps), events)
    requires i < |Run(Opened(ps), events).profiles|
    ensures var qs := Run(Opened(ps), events).profiles; Chosen(Items(qs), qs, i, was) == LoginOf(qs[i])
  {
    SessionKeepsInv(Opened(ps), events);
    ChoosingLoads(Run(Opened(ps), events).profiles, i, was);
  }

  /** The index of the last default among the first n profiles, or -1. */
  function DefaultIndex(ps: seq<ProfileData>, n: nat): (r: int)
    requires n <= |ps|
    ensures -1 <= r < n
    ensures r >= 0 ==> ps[r].isDefault
    ensures forall i :: r < i < n ==> !ps[i].isDefault
  {
    if n == 0 then -1 else if ps[n - 1].isDefault then n - 1 else DefaultIndex(ps, n - 1)
  }

  /** The entry the form starts on: the default, else the remembered one, if it still exists. */
  function StartIndex(ps: seq<ProfileData>, remembered: int): (r: int)
    ensures -1 <= r <= |ps|
    ensures (exists i :: 0 <= i < |ps| && ps[i].isDefault) ==>
              0 <= r < |ps| && ps[r].isDefault && forall i :: r < i < |ps| ==> !ps[i].isDefault
    ensures (forall i :: 0 <= i < |ps| ==> !ps[i].isDefault) ==>
              r == (if 0 <= remembered <= |ps| then remembered else -1)
  {
    var d := DefaultIndex(ps, |ps|);
    if d != -1 then d else if 0 <= remembered <= |ps| then remembered else -1
  }

  class ProfileChooser {
    const manager: ProfileManager
    ghost var profiles: seq<ProfileData>
    var storedProfiles: seq<Profile>
    var items: seq<Bytes>
    var currentIndex: int
    var login: Login

    constructor (manager: ProfileManager)
      ensures this.manager == manager && items == [] && currentIndex == -1 && login == NO_LOGIN
    {
      this.manager := manager;
      profiles, storedProfiles, items, currentIndex, login := [], [], [], -1, NO_LOGIN;
    }

    /** The list holds entries for the first profiles, and perhaps the sentinel. */
    ghost predicate Listed()
      reads this, storedProfiles
    {
      && Shows(storedProfiles, profiles)
      && |items| <= |profiles| + 1 && items == Items(profiles)[..|items|]
    }

    method LoadSelectedProfile(index: int)
      requires Listed() && -1 <= index < |items|
      modifies `login
      ensures login == Chosen(items, profiles, index, old(login))
    {
      if index != -1 {
        login := NO_LOGIN;
        if items[index] != NONE {
          var currentProfile := storedProfiles[index];
          login := Login(currentProfile.address, currentProfile.password, PortText(currentProfile.port));
        }
      }
    }

    /** The combo box tells the form when its index changes. */
    method SetCurrentIndex(index: int)
      requires Listed() && -1 <= index < |items|
      modifies `login, `currentIndex
      ensures currentIndex == index
      ensures login == if index != old(currentIndex) then Chosen(items, profiles, index, old(login)) else old(login)
    {
      if index != currentIndex {
        currentIndex := index;
        LoadSelectedProfile(index);
      }
    }

    /** The first entry of an empty combo box becomes its current one. */
    method AddItem(text: Bytes)
      requires Listed() && |items| <= |profiles| && text == Items(profiles)[|items|]
      requires items == [] ==> currentIndex == -1
      requires items != [] ==> currentIndex == 0
      modifies `items, `login, `currentIndex
      ensures items == old(items) + [text] && Listed() && currentIndex == 0
      ensures login == if old(items) == [] then Chosen(items, profiles, 0, old(login)) else old(login)
    {
      items := items + [text];
      if |items| == 1 {
        SetCurrentIndex(0);
      }
    }

    /** One entry of the list for each stored profile: lines 49-55. */
    method AddItems() returns (defaultIndex: int)
      requires Shows(storedProfiles, profiles)
      requires items == [] && currentIndex == -1
      modifies `items, `login, `currentIndex
      ensures Listed() && items == Items(profiles)[..|profiles|] && defaultIndex == DefaultIndex(profiles, |profiles|)
      ensures if profiles == [] then currentIndex == -1 && login == old(login)
              else currentIndex == 0 && login == Chosen(items, profiles, 0, old(login))
    {
      defaultIndex := -1;
      var i := 0;
      while i < |storedProfiles|
        invariant 0 <= i <= |profiles| && Listed() && |items| == i
        invariant if i == 0 then currentIndex == -1 && login == old(login)
                  else currentIndex == 0 && login == Chosen(items, profiles, 0, old(login))
        invariant defaultIndex == DefaultIndex(profiles, i)
      {
        AddProfile(i);
        if storedProfiles[i].isDefault {
          defaultIndex := i;
        }
        i := i + 1;
      }
    }

    method AddProfile(i: nat)
      requires Listed() && i < |storedProfiles| && |items| == i
      requires if i == 0 then currentIndex == -1 else currentIndex == 0
      modifies `items, `login, `currentIndex
      ensures Listed() && |items| == i + 1 && items[..i] == old(items) && currentIndex == 0
      ensures login == if i == 0 then Chosen(items, profiles, 0, old(login)) else old(login)
    {
      var p := storedProfiles[i];
      AddItem(if p.isDefault then p.name + DEFAULT_MARK else p.name);
    }

    /** Take the profiles from the store and empty the list: lines 46-47. */
    method Reload(ghost ps: seq<ProfileData>)
      requires Holds(manager, ps)
      modifies this, manager.crypto
      ensures profiles == ps && Shows(storedProfiles, ps)
      ensures items == [] && currentIndex == -1 && login == old(login)
    {
      storedProfiles := LoadStored(manager, ps);
      profiles := ps;
      items, currentIndex := [], -1;
    }

    /**
     Fill the list, pick the default or the remembered entry, and show it. When
     neither exists the first entry's profile stays in the fields.
     */
    method LoadStoredProfiles(remembered: int, ghost ps: seq<ProfileData>)
      requires Holds(manager, ps)
      modifies this, manager.crypto
      ensures profiles == ps && Listed() && items == Items(ps)
      ensures currentIndex == StartIndex(ps, remembered)
      ensures login == Chosen(items, ps, if currentIndex != -1 then currentIndex else 0, old(login))
    {
      Reload(ps);
      FillList(remembered);
    }

    method FillList(remembered: int)
      requires Shows(storedProfiles, profiles) && items == [] && currentIndex == -1
      modifies `items, `login, `currentIndex
      ensures Listed() && items == Items(profiles)
      ensures currentIndex == StartIndex(profiles, remembered)
      ensures login == Chosen(items, profiles, if currentIndex != -1 then currentIndex else 0, old(login))
    {
      var defaultIndex := AddItems();
      AddSentinel();
      SelectStart(defaultIndex, remembered);
    }

    method AddSentinel()
      requires Listed() && |items| == |profiles|
      requires if items == [] then currentIndex == -1 else currentIndex == 0
      requires items != [] ==> login == Chosen(items, profiles, 0, login)
      modifies `items, `login, `currentIndex
      ensures Listed() && items == Items(profiles) && currentIndex == 0
      ensures login == Chosen(items, profiles, 0, old(login))
    {
      AddItem(NONE);
    }

    /** Pick the entry to start on: lines 57-61. */
    method SelectStart(defaultIndex: int, remembered: int)
      requires Listed() && items == Items(profiles) && currentIndex == 0
      requires defaultIndex == DefaultIndex(profiles, |profiles|)
      modifies `login, `currentIndex
      ensures currentIndex == StartIndex(profiles, remembered)
      requires login == Chosen(items, profiles, 0, login)
      ensures login == Chosen(items, profiles, if currentIndex != -1 then currentIndex else 0, old(login))
    {
      SetCurrentIndex(
        if defaultIndex != -1 then defaultIndex else if 0 <= remembered < |items| then remembered else -1);
      if currentIndex == -1 || items[currentIndex] != NONE {
        LoadSelectedProfile(defaultIndex);
      }
    }
  }
}

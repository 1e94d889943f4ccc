/** The server's connection table: at each index a client's name and the link to
    its private segment, both set or both NULL. */
module ConnectionTable {
  import opened Wrappers
  import opened Totals

  /** One index of tab_connect and link_table. */
  datatype Slot<+L> = Free | Taken(name: string, link: L)

  function Occupied<L>(s: Slot<L>): nat { if s.Taken? then 1 else 0 }

  /** The first free index, the one the connection loop stops at. */
  function FirstFree<L>(t: seq<Slot<L>>): (r: Option<nat>)
    ensures r.Some? ==> r.value < |t| && t[r.value].Free?
    ensures r.Some? ==> forall i :: 0 <= i < r.value ==> t[i].Taken?
    ensures r.None? ==> forall i :: 0 <= i < |t| ==> t[i].Taken?
  {
    FirstFreeFrom(t, 0)
  }

  function FirstFreeFrom<L>(t: seq<Slot<L>>, i: nat): (r: Option<nat>)
    requires i <= |t|
    ensures r.Some? ==> i <= r.value < |t| && t[r.value].Free?
    ensures r.Some? ==> forall k :: i <= k < r.value ==> t[k].Taken?
    ensures r.None? ==> forall k :: i <= k < |t| ==> t[k].Taken?
    decreases |t| - i
  {
    if i == |t| then None else if t[i].Free? then Some(i) else FirstFreeFrom(t, i + 1)
  }

  /** The first index that carries a name, where the disconnection loop stops. */
  function FindName<L>(t: seq<Slot<L>>, name: string): (r: Option<nat>)
    ensures r.Some? ==> r.value < |t| && t[r.value].Taken? && t[r.value].name == name
    ensures r.Some? ==> forall i :: 0 <= i < r.value && t[i].Taken? ==> t[i].name != name
    ensures r.None? ==> forall i :: 0 <= i < |t| && t[i].Taken? ==> t[i].name != name
  {
    FindNameFrom(t, name, 0)
  }

  function FindNameFrom<L>(t: seq<Slot<L>>, name: string, i: nat): (r: Option<nat>)
    requires i <= |t|
    ensures r.Some? ==> i <= r.value < |t| && t[r.value].Taken? && t[r.value].name == name
    ensures r.Some? ==> forall k :: i <= k < r.value && t[k].Taken? ==> t[k].name != name
    ensures r.None? ==> forall k :: i <= k < |t| && t[k].Taken? ==> t[k].name != name
    decreases |t| - i
  {
    if i == |t| then None
    else if t[i].Taken? && t[i].name == name then Some(i)
    else FindNameFrom(t, name, i + 1)
  }

  /** The table after a connection request; it is full when nothing changes. */
  function Connected<L>(t: seq<Slot<L>>, name: string, link: L): seq<Slot<L>> {
    match FirstFree(t)
    case Some(k) => t[k := Taken(name, link)]
    case None => t
  }

  /** The table after a disconnection request; nothing changes for an unknown name. */
  function Disconnected<L>(t: seq<Slot<L>>, name: string): seq<Slot<L>> {
    match FindName(t, name)
    case Some(k) => t[k := Free]
    case None => t
  }

  /** The request segment a client shares with the server. */
  class ClientSegment {
    var content: string
    var autoris: nat

    constructor ()
      ensures autoris == 0
    {
      content, autoris := "", 0;
    }
  }

  /** co_deco_table and nb_connect. */
  class Table {
    const tabConnect: array<Option<string>>
    const linkTable: array<ClientSegment?>
    var nbConnect: nat

    ghost function SlotAt(i: nat): Slot<ClientSegment?>
      requires i < tabConnect.Length && i < linkTable.Length
      reads this, tabConnect, linkTable
    {
      match tabConnect[i]
      case None => Free
      case Some(name) => Taken(name, linkTable[i])
    }

    /** The table as a sequence. */
    ghost function Slots(): (r: seq<Slot<ClientSegment?>>)
      requires tabConnect.Length == linkTable.Length
      reads this, tabConnect, linkTable
      ensures |r| == tabConnect.Length
      ensures forall i :: 0 <= i < |r| ==> r[i] == SlotAt(i)
    {
      seq(tabConnect.Length, i requires 0 <= i < tabConnect.Length && 0 <= i < linkTable.Length
                               reads this, tabConnect, linkTable => SlotAt(i))
    }

    /** Names and links are set together, no segment is linked twice, and nbConnect
        counts the taken indices. */
    ghost predicate Valid()
      reads this, tabConnect, linkTable
    {
      && tabConnect.Length == linkTable.Length
      && (forall i :: 0 <= i < tabConnect.Length ==> (tabConnect[i].None? <==> linkTable[i] == null))
      && (forall i, j :: 0 <= i < j < linkTable.Length && linkTable[i] != null ==> linkTable[i] != linkTable[j])
      && nbConnect == Total(Slots(), Occupied)
    }

    constructor (max: nat)
      ensures Valid() && fresh(tabConnect) && fresh(linkTable)
      ensures tabConnect.Length == max && nbConnect == 0
      ensures forall i :: 0 <= i < max ==> Slots()[i] == Free
    {
      tabConnect := new Option<string>[max](_ => None);
      linkTable := new ClientSegment?[max](_ => null);
      nbConnect := 0;
      new;
      TotalConstant(Slots(), 0, Occupied);
    }

    /** Takes the first free index for a client and links its segment: 0, or -1 when
        the table is full. */
    method Connexion(name: string, segment: ClientSegment) returns (r: int)
      requires Valid()
      requires forall i :: 0 <= i < linkTable.Length ==> linkTable[i] != segment
      modifies this`nbConnect, tabConnect, linkTable
      ensures Valid()
      ensures Slots() == Connected(old(Slots()), name, segment)
      ensures r == if FirstFree(old(Slots())).Some? then 0 else -1
      ensures nbConnect == old(nbConnect) + if r == 0 then 1 else 0
    {
      ghost var before := Slots();
      var i := 0;
      while i < tabConnect.Length
        invariant 0 <= i <= tabConnect.Length
        invariant forall k :: 0 <= k < i ==> before[k].Taken?
      {
        assert before[i] == SlotAt(i);
        if tabConnect[i] == None {
          tabConnect[i] := Some(name);
          linkTable[i] := segment;
          nbConnect := nbConnect + 1;
          assert FirstFree(before) == Some(i);
          TotalUpdate(before, i, Taken(name, segment), Occupied);
          assert Slots() == before[i := Taken(name, segment)];
          return 0;
        }
        i := i + 1;
      }
      return -1;
    }

    /** Frees the index that carries the requester's name and posts deco_sem: 0, or
        -1 when nobody has that name. */
    method Deconnexion(name: string, decoSem: nat) returns (r: int, deco: nat)
      requires Valid()
      modifies this`nbConnect, tabConnect, linkTable
      ensures Valid()
      ensures Slots() == Disconnected(old(Slots()), name)
      ensures r == if FindName(old(Slots()), name).Some? then 0 else -1
      ensures deco == decoSem + if r == 0 then 1 else 0
      ensures old(nbConnect) == nbConnect + if r == 0 then 1 else 0
    {
      ghost var before := Slots();
      deco := decoSem;
      var i := 0;
      while i < tabConnect.Length
        invariant 0 <= i <= tabConnect.Length
        invariant deco == decoSem
        invariant forall k :: 0 <= k < i && before[k].Taken? ==> before[k].name != name
      {
        assert before[i] == SlotAt(i);
        if tabConnect[i].Some? && tabConnect[i].value == name {
          deco := deco + 1;
          assert FindName(before, name) == Some(i);
          TotalAtLeast(before, i, Occupied);
          TotalUpdate(before, i, Free, Occupied);
          tabConnect[i] := None;
          linkTable[i] := null;
          nbConnect := nbConnect - 1;
          assert Slots() == before[i := Free];
          return 0, deco;
        }
        i := i + 1;
      }
      return -1, deco;
    }

    /** The first loop of diffusion: copies the message into the segment of every
        connected client and authorises each of them once. */
    method FanOut(message: string)
      requires Valid()
      modifies set i | 0 <= i < linkTable.Length :: linkTable[i]
      ensures Valid() && Slots() == old(Slots()) && nbConnect == old(nbConnect)
      ensures forall i :: 0 <= i < linkTable.Length && linkTable[i] != null ==>
                            && linkTable[i].content == message
                            && linkTable[i].autoris == old(linkTable[i].autoris) + 1
    {
      for i := 0 to tabConnect.Length
        invariant Valid() && Slots() == old(Slots()) && nbConnect == old(nbConnect)
        invariant forall k :: 0 <= k < i && linkTable[k] != null ==>
                                && linkTable[k].content == message
                                && linkTable[k].autoris == old(linkTable[k].autoris) + 1
        invariant forall k :: i <= k < linkTable.Length && linkTable[k] != null ==>
                                linkTable[k].autoris == old(linkTable[k].autoris)
      {
        if tabConnect[i] != None {
          linkTable[i].content := message;
          linkTable[i].autoris := linkTable[i].autoris + 1;
        }
      }
    }
  }
}

/** The server's table of client descriptors (server.cpp). */
module ServerTable {

  /** `unsigned short`. */
  type ushort = n: nat | n < 0x1_0000

  /** What a number becomes when it is stored in an `unsigned short`. */
  function Wrap(n: nat): ushort { if n < 0x1_0000 then n else Wrap(n - 0x1_0000) }

  function Up(n: ushort): ushort { if n == 0xFFFF then 0 else n + 1 }

  function Down(n: ushort): ushort { if n == 0 then 0xFFFF else n - 1 }

  lemma {:induction false} WrapIsModulo(n: nat)
    ensures Wrap(n) == n % 0x1_0000
  {
    if n >= 0x1_0000 {
      WrapIsModulo(n - 0x1_0000);
      assert n == 0x1_0000 + (n - 0x1_0000);
    }
  }

  lemma {:induction false} UpWraps(n: nat)
    ensures Up(Wrap(n)) == Wrap(n + 1)
    ensures Down(Wrap(n + 1)) == Wrap(n)
  {
    if n >= 0x1_0000 {
      UpWraps(n - 0x1_0000);
    }
  }

  /** An entry is 0 when free, -1 while a failed accept is being undone, else a descriptor. */
  predicate Occupied(fd: int) { fd != 0 }

  function OccupiedCount(clients: seq<int>): nat {
    if clients == [] then 0
    else OccupiedCount(clients[..|clients| - 1]) + if Occupied(clients[|clients| - 1]) then 1 else 0
  }

  lemma {:induction false} CountUpdate(clients: seq<int>, i: nat, fd: int)
    requires i < |clients|
    ensures OccupiedCount(clients[i := fd]) + (if Occupied(clients[i]) then 1 else 0)
         == OccupiedCount(clients) + if Occupied(fd) then 1 else 0
  {
    var n := |clients| - 1;
    if i < n {
      assert clients[i := fd][..n] == clients[..n][i := fd];
      CountUpdate(clients[..n], i, fd);
    } else {
      assert clients[i := fd][..n] == clients[..n];
    }
  }

  lemma {:induction false} CountBound(clients: seq<int>)
    ensures OccupiedCount(clients) <= |clients|
    ensures OccupiedCount(clients) == 0 <==> forall i :: 0 <= i < |clients| ==> !Occupied(clients[i])
  {
    if clients != [] {
      CountBound(clients[..|clients| - 1]);
      assert clients == clients[..|clients| - 1] + [clients[|clients| - 1]];
    }
  }

  function AllFree(n: nat): (r: seq<int>)
    ensures |r| == n && forall i :: 0 <= i < n ==> r[i] == 0
    ensures OccupiedCount(r) == 0
  {
    if n == 0 then [] else
      var front := AllFree(n - 1);
      assert (front + [0])[..n - 1] == front;
      front + [0]
  }

  /** The descriptors that are shut down when the entries are closed one after the other. */
  function ShutDown(clients: seq<int>): seq<int> {
    if clients == [] then []
    else
      var last := clients[|clients| - 1];
      ShutDown(clients[..|clients| - 1]) + if last == -1 then [] else [last]
  }

  class Server {
    var clients: array<int>
    var maxClients: ushort
    var numClients: ushort
    var currentClientSocket: ushort
    var shut: seq<int>      // every descriptor handed to `shutdown`, in order

    ghost predicate Valid()
      reads this
    {
      clients.Length == maxClients + 1 && maxClients < 0xFFFF
    }

    /** The table is allocated for one client more than the maximum, and every entry is closed. */
    constructor (maxClients: ushort)
      requires maxClients < 0xFFFF
      ensures Valid() && fresh(clients) && this.maxClients == maxClients
      ensures clients[..] == AllFree(maxClients + 1) && numClients == 0
    {
      this.numClients := 0;
      this.maxClients := maxClients;
      this.currentClientSocket := 0;
      this.shut := [];
      this.clients := new int[maxClients + 1];
      new;
      SocketsDisconnect();
    }

    method SetNumClients(n: ushort)
      modifies `numClients
      ensures numClients == n
    {
      numClients := n;
    }

    method SetCurrentClientSocket(i: ushort)
      modifies `currentClientSocket
      ensures currentClientSocket == i
    {
      currentClientSocket := i;
    }

    method ResetSockets()
      requires Valid()
      modifies clients
      ensures clients[..] == AllFree(maxClients + 1)
    {
      for i := 0 to maxClients + 1
        invariant forall j :: 0 <= j < i ==> clients[j] == 0
      {
        clients[i] := 0;
      }
    }

    /** Close one entry: the descriptor is shut down unless the accept had failed; the entry is free. */
    method CloseSocket(index: ushort)
      requires Valid() && index <= maxClients
      modifies clients, `shut
      ensures Valid() && clients[..] == old(clients[..])[index := 0]
      ensures shut == old(shut) + if old(clients[index]) == -1 then [] else [old(clients[index])]
    {
      if clients[index] == -1 {
        clients[index] := 0;
      } else {
        shut := shut + [clients[index]];
        clients[index] := 0;
      }
    }

    method SocketsDisconnect()
      requires Valid()
      modifies clients, `shut
      ensures Valid() && clients[..] == AllFree(maxClients + 1)
      ensures shut == old(shut) + ShutDown(old(clients[..]))
    {
      ghost var was := clients[..];
      for i := 0 to maxClients + 1
        invariant Valid()
        invariant forall j :: 0 <= j < i ==> clients[j] == 0
        invariant forall j :: i <= j < clients.Length ==> clients[j] == was[j]
        invariant shut == old(shut) + ShutDown(was[..i])
      {
        assert was[..i + 1][..i] == was[..i];
        CloseSocket(i);
      }
      assert was[..maxClients + 1] == was;
    }

    /** `SetNumClients(GetNumClients() + 1)`: whatever number the field stood for, it now stands for one more. */
    method CountIn()
      modifies `numClients
      ensures numClients == (old(numClients) + 1) % 0x1_0000
      ensures forall n: nat {:trigger Wrap(n)} :: old(numClients) == Wrap(n) ==> numClients == Wrap(n + 1)
    {
      ghost var was := numClients;
      SetNumClients(Up(numClients));
      forall n: nat | was == Wrap(n)
        ensures numClients == Wrap(n + 1)
      {
        UpWraps(n);
      }
    }

    /** `SetNumClients(GetNumClients() - 1)`: it now stands for one less. */
    method CountOut()
      modifies `numClients
      ensures numClients == (old(numClients) - 1) % 0x1_0000
      ensures forall n: nat {:trigger Wrap(n)} :: n > 0 && old(numClients) == Wrap(n) ==> numClients == Wrap(n - 1)
    {
      ghost var was := numClients;
      SetNumClients(Down(numClients));
      forall n: nat | n > 0 && was == Wrap(n)
        ensures numClients == Wrap(n - 1)
      {
        UpWraps(n - 1);
      }
    }
  }
}

/** The doubly linked list of FTP clients in src/ftpvita.c: what client_list_add and
    client_list_delete do between locking and unlocking the mutex. */
module ClientList {

  class Client {
    var prev: Client?
    var next: Client?
    var restore_point: nat

    constructor () {
      prev, next, restore_point := null, null, 0;
    }
  }

  /** `s` without its element at `i`. */
  function RemoveAt<T>(s: seq<T>, i: nat): (r: seq<T>)
    requires i < |s|
    ensures |r| == |s| - 1
    ensures forall k :: 0 <= k < |r| ==> r[k] == s[if k < i then k else k + 1]
  {
    s[..i] + s[i + 1..]
  }

  class List {
    var client_list: Client?
    var number_clients: int
    /** The listed clients, first to last. */
    ghost var order: seq<Client>

    /** The links are exactly those of `order`, a sequence without repetition. */
    ghost predicate Valid()
      reads this, order
    {
      && number_clients == |order|
      && client_list == (if order == [] then null else order[0])
      && (forall i, j :: 0 <= i < j < |order| ==> order[i] != order[j])
      && (forall i {:trigger order[i].prev} :: 0 <= i < |order| ==>
          order[i].prev == if i == 0 then null else order[i - 1])
      && (forall i {:trigger order[i].next} :: 0 <= i < |order| ==>
          order[i].next == if i + 1 == |order| then null else order[i + 1])
    }

    constructor ()
      ensures Valid() && order == []
    {
      client_list, number_clients, order := null, 0, [];
    }

    /** Only the old head is written besides the new client. */
    method Add(client: Client)
      requires Valid() && client !in order
      modifies this, client, client_list
      ensures Valid() && order == [client] + old(order)
      ensures client.restore_point == 0
      ensures forall c :: c in old(order) ==> c.restore_point == old(c.restore_point)
    {
      ghost var was := order;
      assert forall k :: 0 <= k < |was| ==> was[k] in was;
      if client_list == null {
        client_list := client;
        client.prev := null;
        client.next := null;
      } else {
        client.next := client_list;
        client_list.prev := client;
        client.prev := null;
        client_list := client;
      }
      client.restore_point := 0;
      number_clients := number_clients + 1;
      order := [client] + order;
      assert forall k :: 1 <= k < |order| ==> order[k] == was[k - 1];
    }

    /** ftpvita_fini forgets the clients. */
    method Reset()
      modifies this
      ensures Valid() && order == []
    {
      client_list, number_clients, order := null, 0, [];
    }

    /** Only the two neighbours are written: not the leaving client, and no other. */
    method Delete(client: Client, ghost i: nat)
      requires Valid() && i < |order| && order[i] == client
      modifies this, client.prev, client.next
      ensures Valid() && order == RemoveAt(old(order), i)
      ensures forall c :: c in old(order) ==> c.restore_point == old(c.restore_point)
    {
      ghost var was := order;
      assert client.prev == if i == 0 then null else was[i - 1];
      assert client.next == if i + 1 == |was| then null else was[i + 1];
      if client.prev != null {
        client.prev.next := client.next;
      }
      if client.next != null {
        client.next.prev := client.prev;
      }
      if client == client_list {
        client_list := client.next;
      }
      number_clients := number_clients - 1;
      order := RemoveAt(order, i);
    }
  }
}

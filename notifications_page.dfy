/** The notifications overlay: a local list of items, its unread count, and
    the two updates a click makes, marking the items of one id read and
    removing the items of one id. */
module NotificationsPage {
  datatype Item = Item(id: int, title: string, body: string, when: string, read: bool)

  /** The two items the list starts with: id 1 unread, id 2 read. */
  function InitialItems(): (items: seq<Item>)
    ensures |items| == 2 && items[0].id == 1 && !items[0].read && items[1].id == 2 && items[1].read
  {
    [Item(1, "Rappel", "Pense \U{00E0} faire tes pronos avant 20h.", "il y a 2h", false),
     Item(2, "Journ\U{00E9}e publi\U{00E9}e", "La journ\U{00E9}e 19 est disponible.", "hier", true)]
  }

  /** `items.filter((i) => !i.read).length` */
  function UnreadCount(items: seq<Item>): (n: nat)
    ensures n <= |items|
    ensures n == 0 <==> forall i :: 0 <= i < |items| ==> items[i].read
    ensures n == |items| <==> forall i :: 0 <= i < |items| ==> !items[i].read
  {
    if items == [] then 0 else (if items[0].read then 0 else 1) + UnreadCount(items[1..])
  }

  /** The count splits over a concatenation. */
  lemma {:induction false} UnreadOfAppend(a: seq<Item>, b: seq<Item>)
    ensures UnreadCount(a + b) == UnreadCount(a) + UnreadCount(b)
  {
    if a != [] {
      assert (a + b)[1..] == a[1..] + b;
      UnreadOfAppend(a[1..], b);
    } else {
      assert a + b == b;
    }
  }

  /** The initial list shows one unread item. */
  lemma InitialUnread()
    ensures UnreadCount(InitialItems()) == 1
  {
    var items := InitialItems();
    assert items[1..][1..] == [];
  }

  /** `prev.map((x) => (x.id === id ? { ...x, read: true } : x))` */
  function MarkRead(items: seq<Item>, id: int): (r: seq<Item>)
    ensures |r| == |items|
    ensures forall i :: 0 <= i < |items| ==>
      r[i] == (if items[i].id == id then items[i].(read := true) else items[i])
  {
    if items == [] then [] else [if items[0].id == id then items[0].(read := true) else items[0]] + MarkRead(items[1..], id)
  }

  /** `prev.filter((x) => x.id !== id)` */
  function Without(items: seq<Item>, id: int): (r: seq<Item>)
    ensures |r| <= |items|
    ensures forall x :: x in r <==> x in items && x.id != id
  {
    if items == [] then [] else (if items[0].id == id then [] else [items[0]]) + Without(items[1..], id)
  }

  /** The filter keeps the order: it works element by element over a
      concatenation. */
  lemma {:induction false} WithoutOfAppend(a: seq<Item>, b: seq<Item>, id: int)
    ensures Without(a + b, id) == Without(a, id) + Without(b, id)
  {
    if a != [] {
      assert (a + b)[1..] == a[1..] + b;
      WithoutOfAppend(a[1..], b, id);
    } else {
      assert a + b == b;
    }
  }

  /** A list holding no item of that id is left as it is. */
  lemma {:induction false} WithoutAbsent(items: seq<Item>, id: int)
    requires forall i :: 0 <= i < |items| ==> items[i].id != id
    ensures Without(items, id) == items
  {
    if items != [] {
      WithoutAbsent(items[1..], id);
    }
  }

  /** Removing twice removes nothing more. */
  lemma WithoutIdempotent(items: seq<Item>, id: int)
    ensures Without(Without(items, id), id) == Without(items, id)
  {
    var r := Without(items, id);
    forall i | 0 <= i < |r| ensures r[i].id != id {
      assert r[i] in r;
    }
    WithoutAbsent(r, id);
  }

  /** Marking twice marks nothing more. */
  lemma MarkReadIdempotent(items: seq<Item>, id: int)
    ensures MarkRead(MarkRead(items, id), id) == MarkRead(items, id)
  {
  }

  /** Marking an item read never raises the unread count. */
  lemma {:induction false} MarkReadNeverIncreases(items: seq<Item>, id: int)
    ensures UnreadCount(MarkRead(items, id)) <= UnreadCount(items)
  {
    if items != [] {
      MarkReadNeverIncreases(items[1..], id);
      assert MarkRead(items, id)[1..] == MarkRead(items[1..], id);
    }
  }

  /** With no item of that id the list is left as it is. */
  lemma MarkReadAbsent(items: seq<Item>, id: int)
    requires forall i :: 0 <= i < |items| ==> items[i].id != id
    ensures MarkRead(items, id) == items
  {
  }

  /** Reading the one unread item of a unique id lowers the count by one. */
  lemma {:induction false} MarkReadUniqueUnread(items: seq<Item>, id: int, k: nat)
    requires k < |items| && items[k].id == id && !items[k].read
    requires forall j :: 0 <= j < |items| && items[j].id == id ==> j == k
    ensures UnreadCount(MarkRead(items, id)) == UnreadCount(items) - 1
  {
    var r := MarkRead(items, id);
    assert r[1..] == MarkRead(items[1..], id);
    if k == 0 {
      MarkReadAbsent(items[1..], id);
    } else {
      MarkReadUniqueUnread(items[1..], id, k - 1);
    }
  }

  /** The overlay's item list. */
  class Inbox {
    var items: seq<Item>

    function Unread(): nat
      reads this
    {
      UnreadCount(items)
    }

    constructor Initial()
      ensures items == InitialItems()
    {
      items := InitialItems();
    }

    /** `onRead` of the item with this id. */
    method OnRead(id: int)
      modifies this
      ensures items == MarkRead(old(items), id)
      ensures Unread() <= old(Unread())
    {
      MarkReadNeverIncreases(items, id);
      items := MarkRead(items, id);
    }

    /** `onDelete` of the item with this id. */
    method OnDelete(id: int)
      modifies this
      ensures items == Without(old(items), id)
    {
      items := Without(items, id);
    }
  }
}

/**
 * The playlist (`Playlist`): a list of file paths and a cursor that is -1
 * until the first file is added.
 */
module Playlists {
  import opened Wrappers

  class Playlist {
    var items: seq<string>
    var index: int

    /** The cursor is -1 exactly while the list is empty, and otherwise
        points at an item. */
    ghost predicate Valid()
      reads this
    {
      (items == [] && index == -1) || (items != [] && 0 <= index < |items|)
    }

    constructor ()
      ensures Valid() && items == [] && index == -1
    {
      items := [];
      index := -1;
    }

    /** `add`: appends a path; the first path added becomes current. */
    method Add(path: string)
      requires Valid()
      modifies this
      ensures Valid()
      ensures items == old(items) + [path]
      ensures index == if old(index) == -1 then 0 else old(index)
    {
      items := items + [path];
      if index == -1 {
        index := 0;
      }
    }

    /** `current`: the item under the cursor, `None` while the list is empty. */
    method Current() returns (r: Option<string>)
      requires Valid()
      ensures r.None? <==> items == []
      ensures r.Some? ==> 0 <= index < |items| && r.value == items[index]
    {
      if 0 <= index < |items| {
        r := Some(items[index]);
      } else {
        r := None;
      }
    }

    /** `next`: moves the cursor one item forward and returns that item;
        at the last item (or on an empty list) nothing moves. */
    method Next() returns (r: Option<string>)
      requires Valid()
      modifies this`index
      ensures Valid()
      ensures old(index) + 1 < |items| ==> index == old(index) + 1 && r == Some(items[index])
      ensures old(index) + 1 >= |items| ==> index == old(index) && r == None
    {
      if index + 1 < |items| {
        index := index + 1;
        r := Some(items[index]);
      } else {
        r := None;
      }
    }

    /** `prev`: moves the cursor one item back and returns that item; at the
        first item (or on an empty list) nothing moves. */
    method Prev() returns (r: Option<string>)
      requires Valid()
      modifies this`index
      ensures Valid()
      ensures old(index) - 1 >= 0 ==> index == old(index) - 1 && r == Some(items[index])
      ensures old(index) - 1 < 0 ==> index == old(index) && r == None
    {
      if index - 1 >= 0 {
        index := index - 1;
        r := Some(items[index]);
      } else {
        r := None;
      }
    }

    /** `all`: a copy of the paths in order. */
    method All() returns (r: seq<string>)
      ensures r == items
    {
      r := items;
    }
  }

  /** A client run: nothing moves past either end of the list. */
  method PlaylistWalk(a: string, b: string) returns (first: Option<string>, second: Option<string>, third: Option<string>)
    ensures first == Some(b) && second == None && third == Some(a)
  {
    var p := new Playlist();
    p.Add(a);
    p.Add(b);
    first := p.Next();
    second := p.Next();
    third := p.Prev();
  }
}

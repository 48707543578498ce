/**
 * The language menu (src/menu_handler.cpp): the .txt files of the data directory become
 * menu entries with a capitalised display name, sorted by (display name, path); a cursor
 * driven by the arrow keys (or j/k) picks one. Screen painting is not modelled.
 */
module MenuHandling {
  import opened Common
  import Console

  // ---------------------------------------------------------------------------
  // Display names.
  // ---------------------------------------------------------------------------

  predicate IsAsciiUpper(c: char) { 'A' <= c <= 'Z' }

  predicate IsAsciiLower(c: char) { 'a' <= c <= 'z' }

  /** std::toupper in the "C" locale: only the 26 ASCII letters change. */
  function ToUpper(c: char): (u: char)
    ensures !IsAsciiLower(u)
    ensures IsAsciiLower(c) ==> IsAsciiUpper(u) && u as int == c as int - 32
    ensures !IsAsciiLower(c) ==> u == c
  {
    if IsAsciiLower(c) then (c as int - 32) as char else c
  }

  /** std::tolower in the "C" locale. */
  function ToLower(c: char): (l: char)
    ensures !IsAsciiUpper(l)
    ensures IsAsciiUpper(c) ==> IsAsciiLower(l) && l as int == c as int + 32
    ensures !IsAsciiUpper(c) ==> l == c
  {
    if IsAsciiUpper(c) then (c as int + 32) as char else c
  }

  /** The display name of a file stem: first character upper-cased, every later one lower-cased. */
  function DisplayName(name: string): (d: string)
  {
    seq(|name|, i requires 0 <= i < |name| => if i == 0 then ToUpper(name[i]) else ToLower(name[i]))
  }

  /**
   * The shape of a display name: same length, the empty name unchanged, no lower-case letter
   * first, no upper-case letter after, and every other character kept.
   */
  lemma DisplayNameShape(name: string)
    ensures |DisplayName(name)| == |name|
    ensures name == [] ==> DisplayName(name) == []
    ensures name != [] ==> DisplayName(name)[0] == ToUpper(name[0]) && !IsAsciiLower(DisplayName(name)[0])
    ensures forall i :: 1 <= i < |name| ==> DisplayName(name)[i] == ToLower(name[i]) && !IsAsciiUpper(DisplayName(name)[i])
  {
  }

  /** Capitalising an already capitalised name changes nothing. */
  lemma DisplayNameIdempotent(name: string)
    ensures DisplayName(DisplayName(name)) == DisplayName(name)
  {
    var d := DisplayName(name);
    forall i | 0 <= i < |d|
      ensures DisplayName(d)[i] == d[i]
    {
      if i == 0 {
        assert ToUpper(ToUpper(name[0])) == ToUpper(name[0]);
      } else {
        assert ToLower(ToLower(name[i])) == ToLower(name[i]);
      }
    }
  }

  /** getDisplayName: a copy of the name rewritten character by character. */
  method GetDisplayName(filename: string) returns (display: string)
    ensures display == DisplayName(filename)
  {
    display := filename;
    if |display| > 0 {
      display := display[0 := ToUpper(display[0])];
      var i := 1;
      while i < |display|
        invariant 1 <= i <= |display| == |filename|
        invariant display[0] == ToUpper(filename[0])
        invariant forall k :: 1 <= k < i ==> display[k] == ToLower(filename[k])
        invariant forall k :: i <= k < |display| ==> display[k] == filename[k]
      {
        display := display[i := ToLower(display[i])];
        i := i + 1;
      }
    }
  }

  // ---------------------------------------------------------------------------
  // Directory entries: extension and stem as std::filesystem::path defines them.
  // ---------------------------------------------------------------------------

  /** The index of the last '.' in a file name. */
  function LastDot(name: string): (k: Option<nat>)
    ensures k.None? <==> '.' !in name
    ensures k.Some? ==> k.value < |name| && name[k.value] == '.' && '.' !in name[k.value + 1..]
  {
    if name == [] then None
    else if name[|name| - 1] == '.' then Some(|name| - 1)
    else
      var front := name[..|name| - 1];
      var k := LastDot(front);
      assert name == front + [name[|name| - 1]];
      if k.Some? then
        assert name[k.value + 1..] == front[k.value + 1..] + [name[|name| - 1]];
        k
      else k
  }

  /**
   * path::extension of a file name: from the last dot on, except that "." and "..", a name
   * without a dot, and a name whose only leading dot is its first character have none.
   */
  function Extension(name: string): (e: string)
    ensures |e| <= |name| && e == name[|name| - |e|..]
  {
    if name == "." || name == ".." then ""
    else
      match LastDot(name)
      case None => ""
      case Some(k) => if k == 0 then "" else name[k..]
  }

  /** path::stem: the file name without its extension. */
  function Stem(name: string): (s: string)
    ensures s + Extension(name) == name
  {
    var e := Extension(name);
    assert name == name[..|name| - |e|] + name[|name| - |e|..];
    name[..|name| - |e|]
  }

  /** An entry is listed exactly when its name ends in ".txt" after at least one other character. */
  lemma TxtEntry(name: string)
    ensures Extension(name) == ".txt" <==> |name| >= 5 && name[|name| - 4..] == ".txt"
  {
    if |name| >= 5 && name[|name| - 4..] == ".txt" {
      var k := |name| - 4;
      assert name[k] == '.';
      assert name[k + 1..] == "txt";
      var d := LastDot(name);
      assert d.Some?;
    }
  }

  // ---------------------------------------------------------------------------
  // Menu items and their order.
  // ---------------------------------------------------------------------------

  /** A menu entry: the name shown and the path returned. */
  datatype MenuItem = MenuItem(display: string, path: string)

  /** std::string's operator<: lexicographic by character code, a proper prefix first. */
  predicate StrLess(a: string, b: string)
  {
    if a == [] then b != []
    else if b == [] then false
    else if a[0] != b[0] then a[0] < b[0]
    else StrLess(a[1..], b[1..])
  }

  lemma {:induction false} StrLessIrreflexive(a: string)
    ensures !StrLess(a, a)
  {
    if a != [] {
      StrLessIrreflexive(a[1..]);
    }
  }

  lemma {:induction false} StrLessAsymmetric(a: string, b: string)
    ensures StrLess(a, b) ==> !StrLess(b, a)
  {
    if a != [] && b != [] && a[0] == b[0] {
      StrLessAsymmetric(a[1..], b[1..]);
    }
  }

  lemma {:induction false} StrLessTotal(a: string, b: string)
    ensures a != b ==> StrLess(a, b) || StrLess(b, a)
  {
    if a != [] && b != [] && a[0] == b[0] {
      StrLessTotal(a[1..], b[1..]);
      if a[1..] == b[1..] {
        assert a == [a[0]] + a[1..] && b == [b[0]] + b[1..];
      }
    }
  }

  /** std::pair's operator<: by display name, then by path. */
  predicate ItemLess(x: MenuItem, y: MenuItem)
  {
    StrLess(x.display, y.display) || (x.display == y.display && StrLess(x.path, y.path))
  }

  /** The item order is a strict total order: never both ways, and always one way between different items. */
  lemma ItemOrder(x: MenuItem, y: MenuItem)
    ensures !ItemLess(x, x)
    ensures ItemLess(x, y) ==> !ItemLess(y, x)
    ensures x != y ==> ItemLess(x, y) || ItemLess(y, x)
  {
    StrLessIrreflexive(x.display);
    StrLessIrreflexive(x.path);
    StrLessAsymmetric(x.display, y.display);
    StrLessAsymmetric(x.path, y.path);
    StrLessTotal(x.display, y.display);
    StrLessTotal(x.path, y.path);
  }

  /** Ascending: no item is smaller than the one before it. */
  ghost predicate Sorted(items: seq<MenuItem>)
  {
    forall i :: 0 <= i < |items| - 1 ==> !ItemLess(items[i + 1], items[i])
  }

  function Insert(x: MenuItem, items: seq<MenuItem>): (r: seq<MenuItem>)
    ensures multiset(r) == multiset(items) + multiset{x}
    ensures |r| == |items| + 1
    ensures r[0] == x || (items != [] && r[0] == items[0])
  {
    if items == [] then [x]
    else if !ItemLess(items[0], x) then [x] + items
    else
      assert items == [items[0]] + items[1..];
      [items[0]] + Insert(x, items[1..])
  }

  lemma {:induction false} InsertSorted(x: MenuItem, items: seq<MenuItem>)
    requires Sorted(items)
    ensures Sorted(Insert(x, items))
  {
    if items != [] && ItemLess(items[0], x) {
      var tail := items[1..];
      assert Sorted(tail) by {
        assert forall i :: 0 <= i < |tail| ==> tail[i] == items[i + 1];
      }
      InsertSorted(x, tail);
      var r := Insert(x, tail);
      ItemOrder(items[0], x);
      assert [items[0]] + r == Insert(x, items);
    }
  }

  /** The sort of the collected items (std::sort), as insertion into a sorted list. */
  function SortItems(items: seq<MenuItem>): (sorted: seq<MenuItem>)
    ensures |sorted| == |items|
  {
    if items == [] then [] else Insert(items[|items| - 1], SortItems(items[..|items| - 1]))
  }

  /** The sorted menu is ascending and holds exactly the collected items. */
  lemma {:induction false} SortItemsCorrect(items: seq<MenuItem>)
    ensures Sorted(SortItems(items))
    ensures multiset(SortItems(items)) == multiset(items)
  {
    if items != [] {
      var front := items[..|items| - 1];
      SortItemsCorrect(front);
      InsertSorted(items[|items| - 1], SortItems(front));
      assert items == front + [items[|items| - 1]];
    }
  }

  /** The item for a listed entry of the data directory. */
  function EntryItem(name: string): MenuItem
  {
    MenuItem(DisplayName(Stem(name)), "data/" + name)
  }

  /** The entries with the .txt extension, as items, in directory order. */
  function TxtItems(entries: seq<string>): (items: seq<MenuItem>)
    ensures |items| <= |entries|
  {
    if entries == [] then []
    else
      var last := entries[|entries| - 1];
      TxtItems(entries[..|entries| - 1]) + if Extension(last) == ".txt" then [EntryItem(last)] else []
  }

  /** An item comes from a .txt entry, and every .txt entry gives one. */
  lemma {:induction false} TxtItemsExact(entries: seq<string>)
    ensures forall item :: item in TxtItems(entries) <==>
      exists e :: e in entries && Extension(e) == ".txt" && item == EntryItem(e)
  {
    if entries != [] {
      var front := entries[..|entries| - 1];
      TxtItemsExact(front);
      assert entries == front + [entries[|entries| - 1]];
    }
  }

  // ---------------------------------------------------------------------------
  // The cursor.
  // ---------------------------------------------------------------------------

  const KeyUpAlt: int := 'k' as int
  const KeyDownAlt: int := 'j' as int

  /** One key of the menu loop on the cursor: up and down stop at the first and last item. */
  function MoveCursor(count: nat, selected: nat, key: int): (next: nat)
    requires selected < count
    ensures next < count
    ensures (key == Console.KeyUp || key == KeyUpAlt) ==> next == if selected > 0 then selected - 1 else selected
    ensures (key == Console.KeyDown || key == KeyDownAlt) ==> next == if selected < count - 1 then selected + 1 else selected
    ensures key !in {Console.KeyUp, KeyUpAlt, Console.KeyDown, KeyDownAlt} ==> next == selected
  {
    if key == Console.KeyUp || key == KeyUpAlt then (if selected > 0 then selected - 1 else selected)
    else if key == Console.KeyDown || key == KeyDownAlt then (if selected < count - 1 then selected + 1 else selected)
    else selected
  }

  /** The cursor after a run of keys, none of which ends the menu. */
  function Navigate(count: nat, selected: nat, keys: seq<int>): (s: nat)
    requires selected < count
    ensures s < count
  {
    if keys == [] then selected
    else MoveCursor(count, Navigate(count, selected, keys[..|keys| - 1]), keys[|keys| - 1])
  }

  /** Keys that take the selected item: Enter and space. */
  predicate IsChooseKey(key: int) { key == Console.KeyNewline || key == Console.KeySpace }

  /** What showLanguageMenu returns, or the cursor if the keys run out before it returns. */
  datatype MenuOutcome = Returned(path: string) | StillWaiting(selected: nat)

  /** The line drawn for an item, and the colour role it is drawn in. */
  function ItemLabel(item: string, isSelected: bool): (r: (string, int))
    ensures |r.0| == |item| + 4 && r.0[2..|r.0| - 2] == item
    ensures r.0[..2] == (if isSelected then "> " else "  ") && r.0[|r.0| - 2..] == (if isSelected then " <" else "  ")
    ensures r.1 == if isSelected then Console.ColorCurrent else Console.ColorUntyped
  {
    var open := if isSelected then "> " else "  ";
    var close := if isSelected then " <" else "  ";
    var s := open + item + close;
    assert s[2..|s| - 2] == item && s[..2] == open && s[|s| - 2..] == close;
    (s, if isSelected then Console.ColorCurrent else Console.ColorUntyped)
  }

  /** A label shows which item it belongs to and whether it is the selected one. */
  lemma ItemLabelInjective(a: string, s: bool, b: string, t: bool)
    requires ItemLabel(a, s).0 == ItemLabel(b, t).0
    ensures a == b && s == t
  {
    var la, lb := ItemLabel(a, s).0, ItemLabel(b, t).0;
    assert la[0] == lb[0];
  }

  /** displayMenu: one label per item, in menu order, with the selected one marked. */
  function MenuLabels(items: seq<MenuItem>, selected: nat): (labels: seq<(string, int)>)
    ensures |labels| == |items|
  {
    seq(|items|, i requires 0 <= i < |items| => ItemLabel(items[i].display, i == selected))
  }

  /** With the cursor on an item, exactly that item's label is marked. */
  lemma OneItemMarked(items: seq<MenuItem>, selected: nat)
    requires selected < |items|
    ensures forall i :: 0 <= i < |items| ==> (MenuLabels(items, selected)[i].0[..2] == "> " <==> i == selected)
  {
    forall i | 0 <= i < |items|
      ensures MenuLabels(items, selected)[i].0[..2] == "> " <==> i == selected
    {
      var l := ItemLabel(items[i].display, i == selected).0;
      assert l[..2][0] == l[0];
    }
  }

  /** Why loadAvailableLanguages throws. */
  datatype MenuError = NoDataDirectory | NoTextFiles

  class MenuHandler {
    /** menu_items_: (display name, path) pairs. */
    var menuItems: seq<MenuItem>

    constructor ()
      ensures menuItems == []
    {
      menuItems := [];
    }

    /**
     * loadAvailableLanguages over the names in the data directory (None when it cannot be
     * iterated): the items are the .txt entries, sorted by (display name, path); an empty
     * menu is an error.
     */
    method LoadAvailableLanguages(entries: Option<seq<string>>) returns (err: Option<MenuError>)
      modifies this
      ensures entries.None? ==> err == Some(NoDataDirectory) && menuItems == []
      ensures entries.Some? ==> menuItems == SortItems(TxtItems(entries.value))
      ensures entries.Some? ==> (err == Some(NoTextFiles) <==> menuItems == []) && (err.None? <==> menuItems != [])
      ensures err.None? ==> Sorted(menuItems) && |menuItems| > 0
    {
      menuItems := [];
      if entries.None? {
        return Some(NoDataDirectory);
      }
      var names := entries.value;
      var i := 0;
      while i < |names|
        invariant 0 <= i <= |names|
        invariant menuItems == TxtItems(names[..i])
      {
        assert names[..i + 1][..i] == names[..i];
        var name := names[i];
        if Extension(name) == ".txt" {
          var display := GetDisplayName(Stem(name));
          menuItems := menuItems + [MenuItem(display, "data/" + name)];
        }
        i := i + 1;
      }
      assert names[..|names|] == names;
      var collected := menuItems;
      menuItems := SortItems(collected);
      SortItemsCorrect(collected);
      if menuItems == [] {
        err := Some(NoTextFiles);
      } else {
        err := None;
      }
      if collected == [] {
        assert menuItems == [];
      } else {
        assert collected[0] in multiset(menuItems);
      }
    }

    /**
     * showLanguageMenu over a sequence of keys: up/k and down/j move the cursor within the
     * menu, Enter or space returns the selected item's path, Esc returns "", every other key is
     * ignored. `used` is the number of keys read.
     */
    method ShowLanguageMenu(keys: seq<int>) returns (outcome: MenuOutcome, used: nat)
      requires |menuItems| > 0
      ensures used <= |keys|
      ensures forall k :: 0 <= k < used - 1 ==> !IsChooseKey(keys[k]) && keys[k] != Console.KeyEsc
      ensures outcome.StillWaiting? ==> used == |keys| && outcome.selected == Navigate(|menuItems|, 0, keys)
      ensures outcome.StillWaiting? <==> forall k :: 0 <= k < |keys| ==> !IsChooseKey(keys[k]) && keys[k] != Console.KeyEsc
      ensures outcome.Returned? ==> used >= 1 && (IsChooseKey(keys[used - 1]) || keys[used - 1] == Console.KeyEsc)
      ensures outcome.Returned? && keys[used - 1] == Console.KeyEsc ==> outcome.path == ""
      ensures outcome.Returned? && IsChooseKey(keys[used - 1]) ==>
        outcome.path == menuItems[Navigate(|menuItems|, 0, keys[..used - 1])].path
    {
      var selected: nat := 0;
      used := 0;
      while used < |keys|
        invariant 0 <= used <= |keys|
        invariant selected == Navigate(|menuItems|, 0, keys[..used])
        invariant forall k :: 0 <= k < used ==> !IsChooseKey(keys[k]) && keys[k] != Console.KeyEsc
      {
        var key := keys[used];
        if IsChooseKey(key) {
          return Returned(menuItems[selected].path), used + 1;
        } else if key == Console.KeyEsc {
          return Returned(""), used + 1;
        }
        assert keys[..used + 1][..used] == keys[..used];
        selected := MoveCursor(|menuItems|, selected, key);
        used := used + 1;
      }
      assert keys[..used] == keys;
      outcome := StillWaiting(selected);
    }
  }
}

/** Menu items (`tkreform/menu.py`): an item is unbound until `bind_menu` gives
    it the menu it adds entries to. */
module Menu {
  import opened Common
  import opened Toolkit

  /** What a descriptor keeps of a menu item: its type tag and options. */
  datatype MenuSpec = MenuSpec(itemType: string, data: Kwargs)

  class MenuItem {
    const itemType: string
    const data: Kwargs
    /** The menu (a toolkit handle) the item adds to; None until bound. */
    var base: Option<nat>

    constructor (itemType: string, data: Kwargs)
      ensures this.itemType == itemType && this.data == data && base == None
    {
      this.itemType := itemType;
      this.data := data;
      base := None;
    }

    constructor Cascade(data: Kwargs)
      ensures itemType == "cascade" && this.data == data && base == None
    {
      itemType := "cascade";
      this.data := data;
      base := None;
    }

    constructor Checkbutton(data: Kwargs)
      ensures itemType == "checkbutton" && this.data == data && base == None
    {
      itemType := "checkbutton";
      this.data := data;
      base := None;
    }

    constructor Command(data: Kwargs)
      ensures itemType == "command" && this.data == data && base == None
    {
      itemType := "command";
      this.data := data;
      base := None;
    }

    constructor RadioButton(data: Kwargs)
      ensures itemType == "radiobutton" && this.data == data && base == None
    {
      itemType := "radiobutton";
      this.data := data;
      base := None;
    }

    constructor Separator(data: Kwargs)
      ensures itemType == "separator" && this.data == data && base == None
    {
      itemType := "separator";
      this.data := data;
      base := None;
    }

    function Spec(): MenuSpec {
      MenuSpec(itemType, data)
    }

    /** A bound item refers to a widget of the toolkit it is used with. */
    ghost predicate BoundIn(tk: Toolkit)
      reads this, tk
    {
      base.Some? ==> base.value < |tk.handles|
    }

    method BindMenu(m: nat)
      modifies this
      ensures base == Some(m)
    {
      base := Some(m);
    }

    /** `_add_item`: raise MenuNotBinded when unbound, otherwise add an entry
        of the given type and options to the bound menu. */
    method AddEntry(tk: Toolkit, entryType: string, entryData: Kwargs) returns (r: Outcome)
      requires BoundIn(tk)
      modifies tk`handles
      ensures r == (if base.None? then Raised(MenuNotBinded) else Done)
      ensures base.None? ==> tk.handles == old(tk.handles)
      ensures base.Some? ==>
        tk.handles == old(tk.handles)[base.value := old(tk.handles[base.value]).(entries :=
          old(tk.handles[base.value].entries) + [MenuEntry(entryType, entryData, None)])]
    {
      if base.None? {
        return Raised(MenuNotBinded);
      }
      tk.Add(base.value, MenuEntry(entryType, entryData, None));
      r := Done;
    }

    /** `add_item(it)`: when bound, bind `it` to the same menu and add `it`'s
        entry at the end of that menu; when unbound, raise before touching `it`. */
    method AddItem(tk: Toolkit, it: MenuItem) returns (r: Outcome)
      requires BoundIn(tk)
      modifies tk`handles, it
      ensures base == old(base)
      ensures r == (if base.None? then Raised(MenuNotBinded) else Done)
      ensures base.None? ==> tk.handles == old(tk.handles) && it.base == old(it.base)
      ensures base.Some? ==> it.base == base
      ensures base.Some? ==>
        tk.handles == old(tk.handles)[base.value := old(tk.handles[base.value]).(entries :=
          old(tk.handles[base.value].entries) + [MenuEntry(it.itemType, it.data, None)])]
    {
      if base.None? {
        return Raised(MenuNotBinded);
      }
      it.BindMenu(base.value);
      r := AddEntry(tk, it.itemType, it.data);
    }
  }
}

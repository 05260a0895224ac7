/** The tab/panel widget of assets/js/tabbox.js. Each tab and each panel is
    an element whose class list is modelled as a set of class names; the
    widget keeps the tabs and the panels in two arrays and marks the selected
    tab with "selected" and the visible panel with "show_panel" (the others
    with "hide_panel"). The specification functions below work on the
    sequences of class lists; the class `Tabbox` updates its arrays in place
    and each method is tied to one of them. */
module Tabbox {
  import opened Wrappers

  /** The class list of one element. */
  type ClassList = set<string>

  const Selected: string := "selected"
  const ShowPanel: string := "show_panel"
  const HidePanel: string := "hide_panel"

  /** How a method call ended: it returned `this`, or it threw a TypeError
      by reading `classList` of undefined. */
  datatype Completion = Normal | TypeError

  /** `DOMTokenList.replace(token, newToken)`: nothing happens unless `token`
      is present; then it gives way to `newToken`. */
  function Replace(classes: ClassList, token: string, newToken: string): (r: ClassList)
    ensures token in classes ==> newToken in r && (token != newToken ==> token !in r)
    ensures token !in classes ==> r == classes
    ensures forall c :: c != token && c != newToken ==> (c in r <==> c in classes)
  {
    if token in classes then classes - {token} + {newToken} else classes
  }

  /** `Array.prototype.at`: a negative index counts from the end. */
  function At(length: nat, i: int): (k: nat)
    requires -(length as int) <= i < length
    ensures k < length
    ensures i >= 0 ==> k == i
    ensures i < 0 ==> k + (-i) == length
  {
    if i >= 0 then i else length + i
  }

  /** `filter((e) => e.classList.contains(c))[0]`: the index of the first
      element carrying `c`, or undefined. */
  function FirstWith(lists: seq<ClassList>, c: string): (r: Option<nat>)
    ensures r.Some? ==> r.value < |lists| && c in lists[r.value]
    ensures r.Some? ==> forall j :: 0 <= j < r.value ==> c !in lists[j]
    ensures r.None? ==> forall j :: 0 <= j < |lists| ==> c !in lists[j]
  {
    if lists == [] then None
    else if c in lists[0] then Some(0)
    else
      var rest := FirstWith(lists[1..], c);
      if rest.Some? then Some(rest.value + 1) else None
  }

  /** The class the constructor gives panel `pidx`. */
  function PanelClass(pidx: int, sidx: int): (r: string)
    ensures r == ShowPanel <==> pidx == sidx
    ensures r == HidePanel <==> pidx != sidx
  {
    if pidx != sidx then HidePanel else ShowPanel
  }

  /** Adds "selected" to tab `k`. */
  function MarkTab(tabs: seq<ClassList>, k: nat): (r: seq<ClassList>)
    requires k < |tabs|
    ensures |r| == |tabs| && Selected in r[k]
    ensures forall j :: 0 <= j < |tabs| && j != k ==> r[j] == tabs[j]
    ensures forall c :: c != Selected ==> (c in r[k] <==> c in tabs[k])
  {
    tabs[k := tabs[k] + {Selected}]
  }

  /** Adds "show_panel" to panel `sidx` and "hide_panel" to every other. */
  function MarkPanels(panels: seq<ClassList>, sidx: int): (r: seq<ClassList>)
    ensures |r| == |panels|
    ensures forall j :: 0 <= j < |panels| ==> r[j] == panels[j] + {PanelClass(j, sidx)}
  {
    seq(|panels|, j requires 0 <= j < |panels| => panels[j] + {PanelClass(j, sidx)})
  }

  /** `setSelectedTab`: "selected" leaves the first tab carrying it and is
      added to tab `t`; no other tab changes. Without a selected tab the
      call throws before changing anything (None). */
  function SelectTab(tabs: seq<ClassList>, t: nat): (r: Option<seq<ClassList>>)
    requires t < |tabs|
    ensures r.Some? <==> FirstWith(tabs, Selected).Some?
    ensures r.Some? ==> |r.value| == |tabs| && Selected in r.value[t]
    ensures r.Some? ==> var k := FirstWith(tabs, Selected).value;
      && (k != t ==> r.value[k] == tabs[k] - {Selected})
      && r.value[t] == tabs[t] + {Selected}
      && forall j :: 0 <= j < |tabs| && j != k && j != t ==> r.value[j] == tabs[j]
  {
    var first := FirstWith(tabs, Selected);
    if first.None? then None
    else
      var k := first.value;
      var removed := tabs[k := tabs[k] - {Selected}];
      Some(removed[t := removed[t] + {Selected}])
  }

  /** `setSelectedPanel`: the first panel carrying "show_panel" has it
      replaced by "hide_panel", then panel `p` has "hide_panel" replaced by
      "show_panel" (a no-op when `p` does not carry "hide_panel"). Without a
      shown panel the call throws before changing anything (None). */
  function SelectPanel(panels: seq<ClassList>, p: nat): (r: Option<seq<ClassList>>)
    requires p < |panels|
    ensures r.Some? <==> FirstWith(panels, ShowPanel).Some?
    ensures r.Some? ==> var k := FirstWith(panels, ShowPanel).value;
      && |r.value| == |panels|
      && (k != p ==> r.value[k] == Replace(panels[k], ShowPanel, HidePanel))
      && r.value[p] == Replace(if k == p then Replace(panels[k], ShowPanel, HidePanel) else panels[p], HidePanel, ShowPanel)
      && forall j :: 0 <= j < |panels| && j != k && j != p ==> r.value[j] == panels[j]
  {
    var first := FirstWith(panels, ShowPanel);
    if first.None? then None
    else
      var k := first.value;
      var hidden := panels[k := Replace(panels[k], ShowPanel, HidePanel)];
      Some(hidden[p := Replace(hidden[p], HidePanel, ShowPanel)])
  }

  /** The state after a click, and how the click handler ended. */
  datatype ClickResult = ClickResult(tabs: seq<ClassList>, panels: seq<ClassList>, completion: Completion)

  /** The click handler of tab `i`: for the panel of the same index it
      selects tab `i`, then panel `i`; with no such panel nothing happens. If
      selecting the tab throws, nothing has changed; if selecting the panel
      throws, the tab change stays. */
  function Click(tabs: seq<ClassList>, panels: seq<ClassList>, i: nat): (r: ClickResult)
    requires i < |tabs|
    ensures |r.tabs| == |tabs| && |r.panels| == |panels|
    ensures r.completion == TypeError
        <==> i < |panels| && (FirstWith(tabs, Selected).None? || FirstWith(panels, ShowPanel).None?)
    ensures i >= |panels| || FirstWith(tabs, Selected).None? ==> r.tabs == tabs && r.panels == panels
    ensures FirstWith(panels, ShowPanel).None? ==> r.panels == panels
    ensures i < |panels| && FirstWith(tabs, Selected).Some? ==> Selected in r.tabs[i]
  {
    if i >= |panels| then ClickResult(tabs, panels, Normal)
    else
      var t := SelectTab(tabs, i);
      if t.None? then ClickResult(tabs, panels, TypeError)
      else
        var p := SelectPanel(panels, i);
        if p.None? then ClickResult(t.value, panels, TypeError)
        else ClickResult(t.value, p.value, Normal)
  }

  /** The widget's invariant, at index `k`: tab `k` is the only selected tab,
      panel `k` the only shown panel and every other panel is hidden. */
  predicate ConsistentAt(tabs: seq<ClassList>, panels: seq<ClassList>, k: int)
  {
    && 0 <= k < |tabs| && k < |panels|
    && (forall j :: 0 <= j < |tabs| ==> (Selected in tabs[j] <==> j == k))
    && (forall j :: 0 <= j < |panels| ==> (ShowPanel in panels[j] <==> j == k))
    && (forall j :: 0 <= j < |panels| ==> (HidePanel in panels[j] <==> j != k))
  }

  /** Exactly one selected tab and one shown panel, at the same index. */
  predicate Consistent(tabs: seq<ClassList>, panels: seq<ClassList>)
  {
    var first := FirstWith(tabs, Selected);
    first.Some? && ConsistentAt(tabs, panels, first.value)
  }

  /** The invariant fixes its index. */
  lemma ConsistentAtUnique(tabs: seq<ClassList>, panels: seq<ClassList>, k: int)
    requires ConsistentAt(tabs, panels, k)
    ensures Consistent(tabs, panels) && FirstWith(tabs, Selected) == Some(k)
  {
    assert Selected in tabs[k];
  }

  /** No element carries a marker class yet (the markup before the widget
      is built). */
  predicate Unmarked(tabs: seq<ClassList>, panels: seq<ClassList>)
  {
    && (forall j :: 0 <= j < |tabs| ==> Selected !in tabs[j])
    && (forall j :: 0 <= j < |panels| ==> ShowPanel !in panels[j] && HidePanel !in panels[j])
  }

  /** Construction with an index that names both a tab and a panel
      establishes the invariant at that index. */
  lemma ConstructionConsistent(tabs: seq<ClassList>, panels: seq<ClassList>, sidx: int)
    requires 0 <= sidx < |tabs| && sidx < |panels|
    requires Unmarked(tabs, panels)
    ensures ConsistentAt(MarkTab(tabs, At(|tabs|, sidx)), MarkPanels(panels, sidx), sidx)
  {
  }

  /** With a negative index, `at` still selects a tab (counted from the
      end), but every panel gets "hide_panel" and none gets "show_panel". */
  lemma NegativeIndexHidesAll(tabs: seq<ClassList>, panels: seq<ClassList>, sidx: int)
    requires -|tabs| <= sidx < 0
    ensures Selected in MarkTab(tabs, At(|tabs|, sidx))[|tabs| + sidx]
    ensures forall j :: 0 <= j < |panels| ==>
      HidePanel in MarkPanels(panels, sidx)[j]
      && (ShowPanel in MarkPanels(panels, sidx)[j] <==> ShowPanel in panels[j])
  {
  }

  /** A click on tab `i` that has a panel moves the invariant to `i`. */
  lemma ClickPreservesConsistency(tabs: seq<ClassList>, panels: seq<ClassList>, k: int, i: nat)
    requires ConsistentAt(tabs, panels, k)
    requires i < |tabs| && i < |panels|
    ensures Click(tabs, panels, i).completion == Normal
    ensures ConsistentAt(Click(tabs, panels, i).tabs, Click(tabs, panels, i).panels, i)
  {
    ConsistentAtUnique(tabs, panels, k);
    assert ShowPanel in panels[k];
    assert FirstWith(panels, ShowPanel) == Some(k);
    var r := Click(tabs, panels, i);
    forall j | 0 <= j < |panels|
      ensures (ShowPanel in r.panels[j] <==> j == i) && (HidePanel in r.panels[j] <==> j != i)
    {
    }
  }

  /** Clicking the tab that is already selected changes nothing. */
  lemma ClickSelectedUnchanged(tabs: seq<ClassList>, panels: seq<ClassList>, k: int)
    requires ConsistentAt(tabs, panels, k)
    ensures Click(tabs, panels, k) == ClickResult(tabs, panels, Normal)
  {
    ConsistentAtUnique(tabs, panels, k);
    assert ShowPanel in panels[k];
    assert FirstWith(panels, ShowPanel) == Some(k);
    var r := Click(tabs, panels, k);
    assert r.tabs == tabs by {
      assert tabs[k] + {Selected} == tabs[k];
    }
    assert r.panels == panels by {
      assert r.panels[k] == panels[k];
    }
  }

  /** `setDefaultSelectedTab` after a click elsewhere leaves two selected
      tabs and a panel that is both shown and hidden: it adds the
      construction-time markers again without removing the current ones. */
  lemma ReapplyDefaultBreaksConsistency(tabs: seq<ClassList>, panels: seq<ClassList>, k: int, sidx: int)
    requires ConsistentAt(tabs, panels, k)
    requires 0 <= sidx < |tabs| && sidx < |panels| && sidx != k
    ensures var t := MarkTab(tabs, At(|tabs|, sidx));
      Selected in t[k] && Selected in t[sidx]
    ensures var p := MarkPanels(panels, sidx);
      ShowPanel in p[sidx] && HidePanel in p[sidx]
    ensures !Consistent(MarkTab(tabs, At(|tabs|, sidx)), MarkPanels(panels, sidx))
  {
  }

  /** The widget. `tabs` and `panels` are the class lists of its tab and
      panel elements; `sidx` is the private `#sidx` fixed at construction;
      `publicSidx` is the public `sidx` property, which only
      `setDefaultSelectedTab` creates. */
  class Tabbox {
    const tabs: array<ClassList>
    const panels: array<ClassList>
    const sidx: int
    var publicSidx: Option<int>

    /** The two arrays are distinct and `#sidx` names a tab for `at`. */
    ghost predicate Valid()
      reads this
    {
      tabs != panels && -tabs.Length <= sidx < tabs.Length
    }

    /** Marks tab `at(sidx)` "selected" and every panel shown or hidden. The
        source throws when `at(sidx)` finds no tab; that case is excluded. */
    constructor (tabClasses: seq<ClassList>, panelClasses: seq<ClassList>, sidx: int)
      requires -|tabClasses| <= sidx < |tabClasses|
      ensures Valid() && fresh(tabs) && fresh(panels)
      ensures this.sidx == sidx && publicSidx == None
      ensures tabs[..] == MarkTab(tabClasses, At(|tabClasses|, sidx))
      ensures panels[..] == MarkPanels(panelClasses, sidx)
    {
      var t := new ClassList[|tabClasses|](i requires 0 <= i < |tabClasses| => tabClasses[i]);
      var p := new ClassList[|panelClasses|](i requires 0 <= i < |panelClasses| => panelClasses[i]);
      assert t[..] == tabClasses;
      var at := At(t.Length, sidx);
      t[at] := t[at] + {Selected};
      MarkEachPanel(p, sidx);
      tabs, panels := t, p;
      this.sidx := sidx;
      publicSidx := None;
    }

    /** `getSelectedTab`. */
    function GetSelectedTab(): (r: Option<nat>)
      reads this, tabs
      ensures r.Some? ==> r.value < tabs.Length && Selected in tabs[r.value]
      ensures r.Some? ==> forall j :: 0 <= j < r.value ==> Selected !in tabs[j]
      ensures r.None? ==> forall j :: 0 <= j < tabs.Length ==> Selected !in tabs[j]
    {
      FirstWith(tabs[..], Selected)
    }

    /** `getSelectedPanel`. */
    function GetSelectedPanel(): (r: Option<nat>)
      reads this, panels
      ensures r.Some? ==> r.value < panels.Length && ShowPanel in panels[r.value]
      ensures r.Some? ==> forall j :: 0 <= j < r.value ==> ShowPanel !in panels[j]
      ensures r.None? ==> forall j :: 0 <= j < panels.Length ==> ShowPanel !in panels[j]
    {
      FirstWith(panels[..], ShowPanel)
    }

    /** `setSelectedTab` on tab `t`. */
    method SetSelectedTab(t: nat) returns (done: Completion)
      requires Valid() && t < tabs.Length
      modifies tabs
      ensures SelectTab(old(tabs[..]), t).None? ==> done == TypeError && tabs[..] == old(tabs[..])
      ensures SelectTab(old(tabs[..]), t).Some? ==> done == Normal && tabs[..] == SelectTab(old(tabs[..]), t).value
    {
      var first := GetSelectedTab();
      if first.None? {
        return TypeError;
      }
      var k := first.value;
      tabs[k] := tabs[k] - {Selected};
      tabs[t] := tabs[t] + {Selected};
      done := Normal;
    }

    /** `setSelectedPanel` on panel `p`. */
    method SetSelectedPanel(p: nat) returns (done: Completion)
      requires Valid() && p < panels.Length
      modifies panels
      ensures SelectPanel(old(panels[..]), p).None? ==> done == TypeError && panels[..] == old(panels[..])
      ensures SelectPanel(old(panels[..]), p).Some? ==> done == Normal && panels[..] == SelectPanel(old(panels[..]), p).value
    {
      var first := GetSelectedPanel();
      if first.None? {
        return TypeError;
      }
      var k := first.value;
      panels[k] := Replace(panels[k], ShowPanel, HidePanel);
      panels[p] := Replace(panels[p], HidePanel, ShowPanel);
      done := Normal;
    }

    /** The click listener of tab `i`: walks the panels and, at the panel of
        the same index, selects tab `i` and that panel. */
    method ClickTab(i: nat) returns (done: Completion)
      requires Valid() && i < tabs.Length
      modifies tabs, panels
      ensures var r := Click(old(tabs[..]), old(panels[..]), i);
        tabs[..] == r.tabs && panels[..] == r.panels && done == r.completion
    {
      ghost var tabs0, panels0 := tabs[..], panels[..];
      done := Normal;
      for pidx := 0 to panels.Length
        invariant pidx <= i ==> tabs[..] == tabs0 && panels[..] == panels0 && done == Normal
        invariant pidx > i ==> var r := Click(tabs0, panels0, i);
          tabs[..] == r.tabs && panels[..] == r.panels && done == r.completion
      {
        if pidx == i {
          done := SetSelectedTab(i);
          if done == TypeError {
            return;
          }
          done := SetSelectedPanel(pidx);
          if done == TypeError {
            return;
          }
        }
      }
    }

    /** `setDefaultSelectedTab(s)`: stores `s` in the public `sidx` property,
        then adds "selected" and the panel markers again at the private
        `#sidx`, so `s` has no effect on the classes. */
    method SetDefaultSelectedTab(s: int) returns (r: Tabbox)
      requires Valid()
      modifies this, tabs, panels
      ensures Valid() && r == this && publicSidx == Some(s)
      ensures tabs[..] == MarkTab(old(tabs[..]), At(tabs.Length, sidx))
      ensures panels[..] == MarkPanels(old(panels[..]), sidx)
    {
      publicSidx := Some(s);
      var at := At(tabs.Length, sidx);
      tabs[at] := tabs[at] + {Selected};
      MarkEachPanel(panels, sidx);
      r := this;
    }

    /** `setTabbarDirection`: returns at once; the direction is ignored and
        nothing changes. */
    method SetTabbarDirection(dir: int) returns (r: Tabbox)
      ensures r == this
    {
      r := this;
    }
  }

  /** The `panels.forEach` of the constructor: each panel gets the class
      PanelClass(pidx, sidx) added. */
  method MarkEachPanel(a: array<ClassList>, sidx: int)
    modifies a
    ensures a[..] == MarkPanels(old(a[..]), sidx)
  {
    for pidx := 0 to a.Length
      invariant forall j :: 0 <= j < pidx ==> a[j] == old(a[j]) + {PanelClass(j, sidx)}
      invariant forall j :: pidx <= j < a.Length ==> a[j] == old(a[j])
    {
      a[pidx] := a[pidx] + {PanelClass(pidx, sidx)};
    }
  }
}

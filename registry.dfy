/**
 * The overlay registry `window.CEF` that the host page of scripts/rollup/vue.js
 * and scripts/rollup/react.js defines: the listed components, a visibility
 * table, the inline z-index of every mount element, and the layer and
 * visibility operations on them.
 *
 * The document is abstracted to the set of element ids `getElementById`
 * finds, each with an integer z-index and a flag for the `cef-hidden` class;
 * `window.postMessage` becomes a notice appended to a log.
 */
module CefRegistry {
  import Strings


  /** The message posted on every visibility change: `{component, visible}`. */
  datatype Notice = Notice(component: string, visible: bool)

  /** `Math.max(...xs)` over a non-empty list. */
  function MaxOf(xs: seq<int>): (r: int)
    requires |xs| > 0
    ensures r in xs
    ensures forall k :: 0 <= k < |xs| ==> xs[k] <= r
  {
    if |xs| == 1 then xs[0]
    else
      var m := MaxOf(xs[..|xs| - 1]);
      assert forall k :: 0 <= k < |xs| - 1 ==> xs[..|xs| - 1][k] == xs[k];
      if xs[|xs| - 1] > m then xs[|xs| - 1] else m
  }

  /** `Math.min(...xs)` over a non-empty list. */
  function MinOf(xs: seq<int>): (r: int)
    requires |xs| > 0
    ensures r in xs
    ensures forall k :: 0 <= k < |xs| ==> r <= xs[k]
  {
    if |xs| == 1 then xs[0]
    else
      var m := MinOf(xs[..|xs| - 1]);
      assert forall k :: 0 <= k < |xs| - 1 ==> xs[..|xs| - 1][k] == xs[k];
      if xs[|xs| - 1] < m then xs[|xs| - 1] else m
  }

  /** The z-index a layer operation reads for a name: the element's own, or 0 when there is no element. */
  function LevelOf(name: string, present: set<string>, z: map<string, int>): int
  {
    if name in present && name in z then z[name] else 0
  }

  /** The z-indices of the listed components, in list order. */
  function Levels(names: seq<string>, present: set<string>, z: map<string, int>): (ls: seq<int>)
    ensures |ls| == |names|
    ensures forall k :: 0 <= k < |names| ==> ls[k] == LevelOf(names[k], present, z)
  {
    seq(|names|, k requires 0 <= k < |names| => LevelOf(names[k], present, z))
  }

  /** No listed component lies above the highest level, nor below the lowest one. */
  lemma LevelWithinBounds(names: seq<string>, present: set<string>, z: map<string, int>, n: string)
    requires n in names
    ensures MinOf(Levels(names, present, z)) <= LevelOf(n, present, z) <= MaxOf(Levels(names, present, z))
  {
    var k :| 0 <= k < |names| && names[k] == n;
    assert Levels(names, present, z)[k] == LevelOf(n, present, z);
  }

  /** `isVisible(name)` as intended: only a name whose state was set to `true`. */
  predicate Shown(visibility: map<string, bool>, name: string)
  {
    name in visibility && visibility[name]
  }

  /** The visibility table after `init`: every listed component hidden, nothing else recorded. */
  function InitialVisibility(components: seq<string>): (v: map<string, bool>)
    ensures forall n :: n in v <==> n in components
  {
    map n | n in components :: false
  }

  /** After `init` no name at all is visible, listed or not. */
  lemma InitialNothingShown(components: seq<string>, name: string)
    ensures !Shown(InitialVisibility(components), name)
  {
  }

  /**
   * The members every plain JavaScript object inherits from `Object.prototype`;
   * reading one of them from the `{}` of `visibilityState` yields a truthy value.
   */
  predicate IsPrototypeMember(name: string)
  {
    name in {"constructor", "hasOwnProperty", "isPrototypeOf", "propertyIsEnumerable", "toLocaleString",
             "toString", "valueOf", "__proto__", "__defineGetter__", "__defineSetter__",
             "__lookupGetter__", "__lookupSetter__"}
  }

  /** `this.visibilityState[componentName] || false`, as the page writes it, taken by truthiness. */
  predicate IsVisibleAsWritten(visibility: map<string, bool>, name: string)
  {
    if name in visibility then visibility[name] else IsPrototypeMember(name)
  }

  /** Right after `init`, the page reports `toString` visible although it was never listed or shown. */
  lemma PrototypeNameVisibleAsWritten()
    ensures IsVisibleAsWritten(InitialVisibility(["main_Chat"]), "toString")
    ensures !Shown(InitialVisibility(["main_Chat"]), "toString")
  {
    assert "toString" !in InitialVisibility(["main_Chat"]);
  }

  /** `components.filter(name => this.isVisible(name))`. */
  function VisibleAmong(names: seq<string>, visibility: map<string, bool>): seq<string>
  {
    if |names| == 0 then []
    else
      var last := names[|names| - 1];
      VisibleAmong(names[..|names| - 1], visibility) + (if Shown(visibility, last) then [last] else [])
  }

  /** The visible components are exactly the listed names that are shown. */
  lemma {:induction false} VisibleAmongMembers(names: seq<string>, visibility: map<string, bool>)
    ensures forall n :: n in VisibleAmong(names, visibility) <==> n in names && Shown(visibility, n)
    decreases |names|
  {
    if |names| > 0 {
      var init := names[..|names| - 1];
      VisibleAmongMembers(init, visibility);
      assert names == init + [names[|names| - 1]];
    }
  }

  /** The filter keeps list order: filtering a concatenation concatenates the filtered parts. */
  lemma {:induction false} VisibleAmongAppend(a: seq<string>, b: seq<string>, visibility: map<string, bool>)
    ensures VisibleAmong(a + b, visibility) == VisibleAmong(a, visibility) + VisibleAmong(b, visibility)
    decreases |b|
  {
    if |b| > 0 {
      var init := b[..|b| - 1];
      VisibleAmongAppend(a, init, visibility);
      assert (a + b)[..|a + b| - 1] == a + init;
    } else {
      assert a + b == a;
    }
  }

  /** When no listed name is shown, nothing is visible. */
  lemma {:induction false} VisibleAmongNone(names: seq<string>, visibility: map<string, bool>)
    requires forall k :: 0 <= k < |names| ==> !Shown(visibility, names[k])
    ensures VisibleAmong(names, visibility) == []
    decreases |names|
  {
    if |names| > 0 {
      VisibleAmongNone(names[..|names| - 1], visibility);
    }
  }

  /** Every occurrence of `c` in `names`, in order. */
  function Occurrences(names: seq<string>, c: string): seq<string>
  {
    if |names| == 0 then []
    else Occurrences(names[..|names| - 1], c) + (if names[|names| - 1] == c then [c] else [])
  }

  /** When exactly the listed occurrences of `c` are shown, the filter yields those occurrences. */
  lemma {:induction false} VisibleOnlyOne(names: seq<string>, visibility: map<string, bool>, c: string)
    requires forall k :: 0 <= k < |names| ==> (Shown(visibility, names[k]) <==> names[k] == c)
    ensures VisibleAmong(names, visibility) == Occurrences(names, c)
    decreases |names|
  {
    if |names| > 0 {
      VisibleOnlyOne(names[..|names| - 1], visibility, c);
    }
  }

  /** A name listed once occurs once. */
  lemma {:induction false} OccurrencesOfUnique(names: seq<string>, c: string)
    requires forall i, j :: 0 <= i < j < |names| ==> names[i] != names[j]
    ensures Occurrences(names, c) == (if c in names then [c] else [])
    decreases |names|
  {
    if |names| > 0 {
      var init := names[..|names| - 1];
      OccurrencesOfUnique(init, c);
      assert names == init + [names[|names| - 1]];
    }
  }

  /** The notices `hideAll` posts: one `{name, false}` per listed component whose element exists, in list order. */
  function HideNotices(names: seq<string>, present: set<string>): seq<Notice>
  {
    if |names| == 0 then []
    else
      var last := names[|names| - 1];
      HideNotices(names[..|names| - 1], present) + (if last in present then [Notice(last, false)] else [])
  }

  /** The listed names whose element exists: the elements `hideAll` marks `cef-hidden`. */
  function PresentAmong(names: seq<string>, present: set<string>): (r: set<string>)
    ensures forall n :: n in r <==> n in names && n in present
  {
    set n | n in names && n in present
  }

  /** The visibility table after `hideAll`: every listed name set to false, every other entry kept. */
  function HiddenAll(visibility: map<string, bool>, names: seq<string>): (r: map<string, bool>)
    ensures r.Keys == visibility.Keys
    ensures forall n :: n in r ==> r[n] == (n !in names && visibility[n])
  {
    map n | n in visibility :: n !in names && visibility[n]
  }

  /** One more name hidden: its notice goes after those already posted. */
  lemma HideNoticesStep(posted: seq<Notice>, names: seq<string>, present: set<string>, i: nat)
    requires i < |names|
    ensures posted + HideNotices(names[..i + 1], present)
         == if names[i] in present then posted + HideNotices(names[..i], present) + [Notice(names[i], false)]
            else posted + HideNotices(names[..i], present)
  {
    assert names[..i + 1][..i] == names[..i];
    Strings.AppendAssoc(posted, HideNotices(names[..i], present), [Notice(names[i], false)]);
  }

  /** One more name hidden: its element joins those already marked. */
  lemma PresentAmongStep(marked: set<string>, names: seq<string>, present: set<string>, i: nat)
    requires i < |names|
    ensures marked + PresentAmong(names[..i + 1], present)
         == if names[i] in present then marked + PresentAmong(names[..i], present) + {names[i]}
            else marked + PresentAmong(names[..i], present)
  {
    assert forall n :: n in names[..i + 1] <==> n in names[..i] || n == names[i];
  }

  lemma HiddenAllStep(visibility: map<string, bool>, names: seq<string>, i: nat)
    requires i < |names| && names[i] in visibility
    ensures HiddenAll(visibility, names[..i + 1]) == HiddenAll(visibility, names[..i])[names[i] := false]
  {
    assert forall n :: n in names[..i + 1] <==> n in names[..i] || n == names[i];
  }

  /** The visibility table `showOnly` leaves: `c` shown over a fully hidden list, when its element exists. */
  lemma ShowOnlyVisibility(visibility: map<string, bool>, names: seq<string>, present: set<string>, c: string)
    ensures var v := if c in present then HiddenAll(visibility, names)[c := true] else HiddenAll(visibility, names);
      && VisibleAmong(names, v) == (if c in present then Occurrences(names, c) else [])
      && forall n :: Shown(v, n) && n != c ==> n !in names
  {
    var v := if c in present then HiddenAll(visibility, names)[c := true] else HiddenAll(visibility, names);
    if c in present {
      VisibleOnlyOne(names, v, c);
    } else {
      VisibleAmongNone(names, v);
    }
  }

  class Registry {
    /** `components`: the entry names, in entry order. */
    var components: seq<string>
    /** The ids `document.getElementById` finds. */
    var elements: set<string>
    /** `visibilityState`. */
    var visibility: map<string, bool>
    /** The inline `style.zIndex` of every element. */
    var zIndex: map<string, int>
    /** The elements carrying the `cef-hidden` class. */
    var hiddenClass: set<string>
    /** Every `window.postMessage` so far, oldest first. */
    var notices: seq<Notice>

    /**
     * The registry's invariant: every element has a z-index, every listed
     * component has a visibility entry, only an existing element can be
     * visible, and an element carries `cef-hidden` exactly when it is not
     * visible.
     */
    ghost predicate Valid()
      reads this
    {
      && |components| > 0
      && zIndex.Keys == elements
      && hiddenClass <= elements
      && (forall n :: n in components ==> n in visibility)
      && (forall n :: Shown(visibility, n) ==> n in elements)
      && (forall n :: n in elements ==> (n in hiddenClass <==> !Shown(visibility, n)))
    }

    /** `isVisible(name)`. */
    function IsVisible(name: string): bool
      reads this
    {
      Shown(visibility, name)
    }

    function Level(name: string): int
      reads this
    {
      LevelOf(name, elements, zIndex)
    }

    /** `getHighestZIndex()`. */
    function Highest(): int
      reads this
      requires |components| > 0
    {
      MaxOf(Levels(components, elements, zIndex))
    }

    /** The lowest z-index `sendToBack` reads. */
    function Lowest(): int
      reads this
      requires |components| > 0
    {
      MinOf(Levels(components, elements, zIndex))
    }

    /** `getVisibleComponents()`. */
    function VisibleComponents(): seq<string>
      reads this
    {
      VisibleAmong(components, visibility)
    }

    /**
     * The page as loaded: one hidden div at z-index 1 per element, then
     * `init()`, which records every listed component as not visible.
     */
    constructor (names: seq<string>, present: set<string>)
      requires |names| > 0
      ensures Valid()
      ensures components == names && elements == present && notices == []
      ensures visibility == InitialVisibility(names)
      ensures zIndex == map e | e in present :: 1
      ensures hiddenClass == present
      ensures forall n :: !IsVisible(n)
    {
      components := names;
      elements := present;
      visibility := InitialVisibility(names);
      zIndex := map e | e in present :: 1;
      hiddenClass := present;
      notices := [];
    }

    /** `bringToFront(c)`: an existing element goes one above the highest listed component. */
    method BringToFront(c: string)
      requires Valid()
      modifies this
      ensures Valid()
      ensures components == old(components) && elements == old(elements) && visibility == old(visibility)
      ensures hiddenClass == old(hiddenClass) && notices == old(notices)
      ensures zIndex == if c in elements then old(zIndex)[c := old(Highest()) + 1] else old(zIndex)
      ensures c in elements ==> forall n :: n in components && n != c ==> Level(n) < Level(c)
    {
      if c in elements {
        var highest := Highest();
        zIndex := zIndex[c := highest + 1];
        forall n | n in components && n != c
          ensures Level(n) < Level(c)
        {
          LevelWithinBounds(components, elements, old(zIndex), n);
        }
      }
    }

    /** `sendToBack(c)` (vue.js): an existing element goes one below the lowest listed component. */
    method SendToBack(c: string)
      requires Valid()
      modifies this
      ensures Valid()
      ensures components == old(components) && elements == old(elements) && visibility == old(visibility)
      ensures hiddenClass == old(hiddenClass) && notices == old(notices)
      ensures zIndex == if c in elements then old(zIndex)[c := old(Lowest()) - 1] else old(zIndex)
      ensures c in elements ==> forall n :: n in components && n != c ==> Level(c) < Level(n)
    {
      if c in elements {
        var lowest := Lowest();
        zIndex := zIndex[c := lowest - 1];
        forall n | n in components && n != c
          ensures Level(c) < Level(n)
        {
          LevelWithinBounds(components, elements, old(zIndex), n);
        }
      }
    }

    /** `setZIndex(c, z)` (vue.js). */
    method SetZIndex(c: string, z: int)
      requires Valid()
      modifies this
      ensures Valid()
      ensures components == old(components) && elements == old(elements) && visibility == old(visibility)
      ensures hiddenClass == old(hiddenClass) && notices == old(notices)
      ensures zIndex == if c in elements then old(zIndex)[c := z] else old(zIndex)
      ensures c in elements ==> Level(c) == z
    {
      if c in elements {
        zIndex := zIndex[c := z];
      }
    }

    /** `moveAbove(c, ref)` (vue.js): one above the reference, when both elements exist. */
    method MoveAbove(c: string, ref: string)
      requires Valid()
      modifies this
      ensures Valid()
      ensures components == old(components) && elements == old(elements) && visibility == old(visibility)
      ensures hiddenClass == old(hiddenClass) && notices == old(notices)
      ensures zIndex == if c in elements && ref in elements then old(zIndex)[c := old(zIndex)[ref] + 1] else old(zIndex)
      ensures c in elements && ref in elements && c != ref ==> Level(c) == Level(ref) + 1
    {
      if c in elements && ref in elements {
        zIndex := zIndex[c := zIndex[ref] + 1];
      }
    }

    /** `moveBelow(c, ref)` (vue.js): one below the reference, when both elements exist. */
    method MoveBelow(c: string, ref: string)
      requires Valid()
      modifies this
      ensures Valid()
      ensures components == old(components) && elements == old(elements) && visibility == old(visibility)
      ensures hiddenClass == old(hiddenClass) && notices == old(notices)
      ensures zIndex == if c in elements && ref in elements then old(zIndex)[c := old(zIndex)[ref] - 1] else old(zIndex)
      ensures c in elements && ref in elements && c != ref ==> Level(c) == Level(ref) - 1
    {
      if c in elements && ref in elements {
        zIndex := zIndex[c := zIndex[ref] - 1];
      }
    }

    /**
     * `show(c)`: an existing element loses `cef-hidden`, becomes visible,
     * goes above every other listed component, and `{c, true}` is posted.
     * Without an element nothing happens.
     */
    method Show(c: string)
      requires Valid()
      modifies this
      ensures Valid()
      ensures components == old(components) && elements == old(elements)
      ensures c in elements ==>
        && visibility == old(visibility)[c := true]
        && hiddenClass == old(hiddenClass) - {c}
        && zIndex == old(zIndex)[c := old(Highest()) + 1]
        && notices == old(notices) + [Notice(c, true)]
        && (forall n :: n in components && n != c ==> Level(n) < Level(c))
      ensures c !in elements ==>
        visibility == old(visibility) && hiddenClass == old(hiddenClass) && zIndex == old(zIndex) && notices == old(notices)
      ensures IsVisible(c) <==> c in elements
      ensures forall n :: n != c ==> IsVisible(n) == old(IsVisible(n))
    {
      if c in elements {
        hiddenClass := hiddenClass - {c};
        visibility := visibility[c := true];
        BringToFront(c);
        notices := notices + [Notice(c, true)];
      }
    }

    /** `hide(c)`: an existing element gets `cef-hidden`, becomes not visible, and `{c, false}` is posted. */
    method Hide(c: string)
      requires Valid()
      modifies this
      ensures Valid()
      ensures components == old(components) && elements == old(elements) && zIndex == old(zIndex)
      ensures c in elements ==>
        && visibility == old(visibility)[c := false]
        && hiddenClass == old(hiddenClass) + {c}
        && notices == old(notices) + [Notice(c, false)]
      ensures c !in elements ==>
        visibility == old(visibility) && hiddenClass == old(hiddenClass) && notices == old(notices)
      ensures !IsVisible(c)
      ensures forall n :: n != c ==> IsVisible(n) == old(IsVisible(n))
    {
      if c in elements {
        hiddenClass := hiddenClass + {c};
        visibility := visibility[c := false];
        notices := notices + [Notice(c, false)];
      }
    }

    /**
     * `toggle(c)`: hide when visible, else show. An existing element flips,
     * changes its class, and `{c, <new state>}` is posted; it is brought to
     * the front only when it is shown. Without an element nothing changes.
     */
    method Toggle(c: string)
      requires Valid()
      modifies this
      ensures Valid()
      ensures components == old(components) && elements == old(elements)
      ensures c in elements ==>
        && visibility == old(visibility)[c := !old(IsVisible(c))]
        && hiddenClass == (if old(IsVisible(c)) then old(hiddenClass) + {c} else old(hiddenClass) - {c})
        && zIndex == (if old(IsVisible(c)) then old(zIndex) else old(zIndex)[c := old(Highest()) + 1])
        && notices == old(notices) + [Notice(c, !old(IsVisible(c)))]
      ensures c !in elements ==>
        visibility == old(visibility) && hiddenClass == old(hiddenClass) && zIndex == old(zIndex) && notices == old(notices)
      ensures IsVisible(c) <==> c in elements && !old(IsVisible(c))
      ensures forall n :: n != c ==> IsVisible(n) == old(IsVisible(n))
    {
      if IsVisible(c) {
        Hide(c);
      } else {
        Show(c);
      }
    }

    /** `hideAll()`: `hide` on every listed component, in list order. */
    method HideAll()
      requires Valid()
      modifies this
      ensures Valid()
      ensures components == old(components) && elements == old(elements) && zIndex == old(zIndex)
      ensures visibility == HiddenAll(old(visibility), components)
      ensures hiddenClass == old(hiddenClass) + PresentAmong(components, elements)
      ensures notices == old(notices) + HideNotices(components, elements)
      ensures VisibleComponents() == []
    {
      var i := 0;
      while i < |components|
        invariant 0 <= i <= |components|
        invariant Valid()
        invariant components == old(components) && elements == old(elements) && zIndex == old(zIndex)
        invariant visibility == HiddenAll(old(visibility), components[..i])
        invariant hiddenClass == old(hiddenClass) + PresentAmong(components[..i], elements)
        invariant notices == old(notices) + HideNotices(components[..i], elements)
      {
        var c := components[i];
        HideNoticesStep(old(notices), components, elements, i);
        PresentAmongStep(old(hiddenClass), components, elements, i);
        HiddenAllStep(old(visibility), components, i);
        Hide(c);
        if c !in elements {
          assert visibility == visibility[c := false];
        }
        i := i + 1;
      }
      assert components[..i] == components;
      VisibleAmongNone(components, visibility);
    }

    /**
     * `showOnly(c)`: `hideAll()` then `show(c)`. Afterwards the visible
     * components are exactly the listed occurrences of `c`, when its element
     * exists, and none otherwise.
     */
    method ShowOnly(c: string)
      requires Valid()
      modifies this
      ensures Valid()
      ensures components == old(components) && elements == old(elements)
      ensures visibility == if c in elements then HiddenAll(old(visibility), components)[c := true]
                            else HiddenAll(old(visibility), components)
      ensures hiddenClass == if c in elements then old(hiddenClass) + PresentAmong(components, elements) - {c}
                             else old(hiddenClass) + PresentAmong(components, elements)
      ensures zIndex == if c in elements then old(zIndex)[c := old(Highest()) + 1] else old(zIndex)
      ensures notices == old(notices) + HideNotices(components, elements) + (if c in elements then [Notice(c, true)] else [])
      ensures VisibleComponents() == if c in elements then Occurrences(components, c) else []
      ensures forall n :: IsVisible(n) && n != c ==> n !in components
    {
      ghost var highest := Highest();
      HideAll();
      assert Highest() == highest;
      ghost var hidden, classes, posted := visibility, hiddenClass, notices;
      Show(c);
      if c in elements {
        assert visibility == hidden[c := true] && hiddenClass == classes - {c};
        assert notices == posted + [Notice(c, true)];
      }
      ShowOnlyVisibility(old(visibility), components, elements, c);
    }
  }
}

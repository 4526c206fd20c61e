/** The capabilities tree with its switches: `switched` and `Capabilities.found` of agent/src/access/capabilities.ts. */
module Capabilities {
  import opened Wrappers
  import opened Json

  datatype Access = Off | On | Tier(rank: int)

  datatype Item = Item(id: Text, access: Access, ownAccess: Access, reason: Option<Text>)

  /** A source: its items, and the sources under it. */
  datatype View = View(id: Text, title: Text, enabled: bool, items: seq<Item>, children: seq<View>)

  function OffWhile(title: Text): Text {
    Ascii("Off while \"") + title + Ascii("\" is switched off")
  }

  function SwitchedItem(item: Item, off: Option<Text>): Item {
    if off.None? then item
    else
      item.(access := Off,
            reason := if item.ownAccess == Off && item.reason.Some? then item.reason else Some(OffWhile(off.value)))
  }

  function SwitchedItems(items: seq<Item>, off: Option<Text>): (r: seq<Item>)
    ensures |r| == |items|
  {
    seq(|items|, i requires 0 <= i < |items| => SwitchedItem(items[i], off))
  }

  /** The switch that is off for a source: the one above it, else its own. */
  function OffBy(view: View, offBy: Option<Text>): Option<Text> {
    if offBy.Some? then offBy else if view.enabled then None else Some(view.title)
  }

  function Switched(view: View, offBy: Option<Text>): View
    decreases view, 1
  {
    var off := OffBy(view, offBy);
    view.(items := SwitchedItems(view.items, off), children := SwitchedAll(view.children, off))
  }

  function SwitchedAll(views: seq<View>, off: Option<Text>): (r: seq<View>)
    ensures |r| == |views|
    decreases views, 0
  {
    if views == [] then [] else [Switched(views[0], off)] + SwitchedAll(views[1..], off)
  }

  lemma {:induction false} SwitchedEach(views: seq<View>, off: Option<Text>, i: nat)
    requires i < |views|
    ensures SwitchedAll(views, off)[i] == Switched(views[i], off)
  {
    if i > 0 {
      SwitchedEach(views[1..], off, i - 1);
    }
  }

  /* ---- at every depth ---- */

  /** A path of child places from a source. */
  predicate IsPath(view: View, path: seq<int>)
    decreases |path|
  {
    path == [] || (0 <= path[0] < |view.children| && IsPath(view.children[path[0]], path[1..]))
  }

  function At(view: View, path: seq<int>): View
    requires IsPath(view, path)
    decreases |path|
  {
    if path == [] then view else At(view.children[path[0]], path[1..])
  }

  /** Every source under one that a path leads to has a path. */
  lemma {:induction false} PathGoesOn(view: View, path: seq<int>, k: int)
    requires IsPath(view, path)
    ensures IsPath(view, path + [k]) <==> 0 <= k < |At(view, path).children|
    ensures IsPath(view, path + [k]) ==> At(view, path + [k]) == At(view, path).children[k]
    decreases |path|
  {
    if path == [] {
      assert IsPath(view, [k]) <==> 0 <= k < |view.children|;
      assert [] + [k] == [k];
    } else {
      PathGoesOn(view.children[path[0]], path[1..], k);
      assert (path + [k])[1..] == path[1..] + [k];
    }
  }

  /** The topmost switch that is off on the way down a path, its end included. */
  function Topmost(view: View, path: seq<int>): Option<Text>
    requires IsPath(view, path)
    decreases |path|
  {
    if !view.enabled then Some(view.title)
    else if path == [] then None
    else Topmost(view.children[path[0]], path[1..])
  }

  /**
   * At any depth an item reads off exactly when some switch from its source to the top is off, or it was off
   * already; its own access never moves; and the reason names the topmost switch.
   */
  lemma {:induction false} SwitchedAt(view: View, path: seq<int>, offBy: Option<Text>)
    requires IsPath(view, path)
    ensures IsPath(Switched(view, offBy), path)
    ensures var off := if offBy.Some? then offBy else Topmost(view, path);
            At(Switched(view, offBy), path).items == SwitchedItems(At(view, path).items, off)
    decreases |path|
  {
    if path != [] {
      var off := OffBy(view, offBy);
      SwitchedEach(view.children, off, path[0]);
      SwitchedAt(view.children[path[0]], path[1..], off);
    }
  }

  /** The same, of one item as it is read. */
  lemma ReadsOffIff(view: View, path: seq<int>, k: nat)
    requires IsPath(view, path) && k < |At(view, path).items|
    ensures IsPath(Switched(view, None), path) && k < |At(Switched(view, None), path).items|
    ensures var item, read := At(view, path).items[k], At(Switched(view, None), path).items[k];
            && (read.access == Off <==> Topmost(view, path).Some? || item.access == Off)
            && read.ownAccess == item.ownAccess
            && (Topmost(view, path).None? ==> read == item)
            && (Topmost(view, path).Some? ==>
                  read.reason == if item.ownAccess == Off && item.reason.Some? then item.reason
                                 else Some(OffWhile(Topmost(view, path).value)))
  {
    SwitchedAt(view, path, None);
  }

  /* ---- by id ---- */

  function Find(views: seq<View>, id: Text): Option<View> {
    if views == [] then None
    else if views[0].id == id then Some(views[0])
    else Find(views[1..], id)
  }

  /** The first with that id. */
  lemma {:induction false} FindIs(views: seq<View>, id: Text, view: View)
    ensures Find(views, id) == Some(view) <==>
            exists i :: 0 <= i < |views| && views[i] == view && view.id == id
                        && forall j :: 0 <= j < i ==> views[j].id != id
  {
    if views != [] {
      FindIs(views[1..], id, view);
      forall i | 0 < i < |views|
        ensures views[i] == views[1..][i - 1]
      {
      }
      if views[0].id != id && Find(views, id) == Some(view) {
        var i :| 0 <= i < |views[1..]| && views[1..][i] == view && view.id == id
                 && forall j :: 0 <= j < i ==> views[1..][j].id != id;
        assert views[i + 1] == view;
      }
    }
  }

  /** A source found: with its switches folded in, and as its provider answers it. */
  datatype Found = Found(source: View, own: View)

  /** Where sources come from: those it owns, all of them at once, one by its id, and a child's parent. */
  datatype Provider = Provider(
    owns: Text -> bool, list: seq<View>, get: Text -> Option<View>, parentOf: Text -> Option<Text>)
  {
    /** It answers for one source what it lists for it, and lists no other's; a parent is no child. */
    ghost predicate Consistent() {
      && (forall view :: view in list ==> owns(view.id))
      && (forall id :: owns(id) && parentOf(id).None? ==> get(id) == Find(list, id))
      && (forall id :: owns(id) && parentOf(id).Some? ==>
            owns(parentOf(id).value) && parentOf(parentOf(id).value).None?)
    }
  }

  /** The first provider that owns the source. */
  function Owner(providers: seq<Provider>, id: Text): Option<Provider> {
    if providers == [] then None
    else if providers[0].owns(id) then Some(providers[0])
    else Owner(providers[1..], id)
  }

  /** `found`, of the provider that owns it: a child is taken from its folded parent. */
  function FoundBy(provider: Provider, id: Text): Option<Found> {
    match provider.parentOf(id)
    case Some(parentId) =>
      (match provider.get(parentId)
       case None => None
       case Some(parent) =>
         var own, source := Find(parent.children, id), Find(Switched(parent, None).children, id);
         if own.None? || source.None? then None else Some(Found(source.value, own.value)))
    case None =>
      match provider.get(id)
      case None => None
      case Some(own) => Some(Found(Switched(own, None), own))
  }

  function FoundAs(providers: seq<Provider>, id: Text): Option<Found> {
    match Owner(providers, id)
    case None => None
    case Some(provider) => FoundBy(provider, id)
  }

  function Listed(providers: seq<Provider>): seq<View> {
    if providers == [] then [] else providers[0].list + Listed(providers[1..])
  }

  /** `tree`. */
  function Tree(providers: seq<Provider>): seq<View> {
    SwitchedAll(Listed(providers), None)
  }

  lemma {:induction false} FindSwitched(views: seq<View>, off: Option<Text>, id: Text)
    ensures Find(SwitchedAll(views, off), id)
         == match Find(views, id) case None => None case Some(view) => Some(Switched(view, off))
  {
    if views != [] {
      FindSwitched(views[1..], off, id);
      assert SwitchedAll(views, off)[1..] == SwitchedAll(views[1..], off);
    }
  }

  lemma {:induction false} FindBoth(views: seq<View>, more: seq<View>, id: Text)
    ensures Find(views + more, id) == if Find(views, id).Some? then Find(views, id) else Find(more, id)
  {
    if views == [] {
      assert views + more == more;
    } else {
      assert (views + more)[1..] == views[1..] + more;
      FindBoth(views[1..], more, id);
    }
  }

  lemma {:induction false} NotListed(views: seq<View>, id: Text)
    requires forall view :: view in views ==> view.id != id
    ensures Find(views, id) == None
  {
    if views != [] {
      assert views == [views[0]] + views[1..];
      NotListed(views[1..], id);
    }
  }

  /** Each source is one provider's. */
  ghost predicate Partitioned(providers: seq<Provider>) {
    && (forall provider :: provider in providers ==> provider.Consistent())
    && forall i, j, id: Text :: 0 <= i < j < |providers| && providers[i].owns(id) ==> !providers[j].owns(id)
  }

  lemma {:induction false} NoneOwned(providers: seq<Provider>, id: Text)
    requires forall provider :: provider in providers ==> provider.Consistent() && !provider.owns(id)
    ensures Find(Listed(providers), id) == None
  {
    if providers != [] {
      NotListed(providers[0].list, id);
      FindBoth(providers[0].list, Listed(providers[1..]), id);
      NoneOwned(providers[1..], id);
    }
  }

  /** What all providers list of a source is what its owner lists. */
  lemma {:induction false} ListedByOwner(providers: seq<Provider>, id: Text)
    requires Partitioned(providers)
    ensures var owner := Owner(providers, id);
            && (owner.Some? ==> owner.value in providers && owner.value.owns(id))
            && Find(Listed(providers), id) == if owner.None? then None else Find(owner.value.list, id)
  {
    if providers != [] {
      var first, rest := providers[0], providers[1..];
      assert first in providers && first.Consistent();
      FindBoth(first.list, Listed(rest), id);
      if first.owns(id) {
        forall provider | provider in rest
          ensures !provider.owns(id)
        {
          var j :| 0 <= j < |rest| && rest[j] == provider;
          assert providers[j + 1] == provider;
        }
        NoneOwned(rest, id);
      } else {
        assert forall i :: 0 <= i < |rest| ==> rest[i] == providers[i + 1];
        NotListed(first.list, id);
        ListedByOwner(rest, id);
      }
    }
  }

  /** A source asked for by id, child or not, reads as it does in the tree. */
  lemma FoundAsInTree(providers: seq<Provider>, id: Text)
    requires Partitioned(providers)
    ensures var owner := Owner(providers, id);
            var shown :=
              if owner.None? then None
              else
                match owner.value.parentOf(id)
                case None => Find(Tree(providers), id)
                case Some(parentId) =>
                  match Find(Tree(providers), parentId)
                  case None => None
                  case Some(parent) => Find(parent.children, id);
            match FoundAs(providers, id)
            case None => shown == None
            case Some(found) => shown == Some(found.source)
  {
    ListedByOwner(providers, id);
    var owner := Owner(providers, id);
    if owner.Some? {
      match owner.value.parentOf(id) {
        case None => FindSwitched(Listed(providers), None, id);
        case Some(parentId) =>
          OwnsParent(providers, owner.value, parentId);
          ListedByOwner(providers, parentId);
          FindSwitched(Listed(providers), None, parentId);
          match Find(Listed(providers), parentId) {
            case None =>
            case Some(parent) => FindSwitched(parent.children, OffBy(parent, None), id);
          }
      }
    }
  }

  lemma {:induction false} OwnsParent(providers: seq<Provider>, owner: Provider, id: Text)
    requires Partitioned(providers) && owner in providers && owner.owns(id)
    ensures Owner(providers, id) == Some(owner)
  {
    var k :| 0 <= k < |providers| && providers[k] == owner;
    if k > 0 {
      assert providers[1..][k - 1] == owner;
      assert forall i :: 0 <= i < |providers[1..]| ==> providers[1..][i] == providers[i + 1];
      OwnsParent(providers[1..], owner, id);
    }
  }

  /** Why a child is not folded alone: under a parent switched off it would read as if on. */
  lemma AloneReadsOtherwise(parent: View, i: nat, k: nat)
    requires i < |parent.children| && k < |parent.children[i].items|
    requires !parent.enabled && parent.children[i].enabled && parent.children[i].items[k].access != Off
    ensures Switched(parent.children[i], None).items[k].access != Off
    ensures var child := Switched(parent, None).children[i]; k < |child.items| && child.items[k].access == Off
  {
    SwitchedEach(parent.children, Some(parent.title), i);
  }
}

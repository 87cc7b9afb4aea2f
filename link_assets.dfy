// src/pages/Assets/LinkAssets.tsx: which parent may be linked from, which
// children are offered, when the Link button is enabled, and what the confirm
// handler sends. The handler's guard is modelled twice: as written, and as
// evidently intended.

module LinkAssets {
  import opened Seqs
  import opened Text
  import opened Domain
  import opened RoleUtils

  /** The relationship Select's choices, in order. */
  const RelationshipTypes: seq<string> := ["License", "Consumable", "Peripheral"]

  /** The choice a relationship name stands for. */
  function RelationFromName(s: string): (r: Option<Relation>)
    ensures r.Some? <==> s in RelationshipTypes
    ensures r.Some? ==> RelationName(r.value) == s
  {
    if s == "License" then Some(License)
    else if s == "Consumable" then Some(Consumable)
    else if s == "Peripheral" then Some(Peripheral)
    else None
  }

  /** The choices are exactly the three relations, each under its own name. */
  lemma RelationshipTypesRoundTrip(r: Relation)
    ensures RelationName(r) in RelationshipTypes
    ensures RelationFromName(RelationName(r)) == Some(r)
  {
  }

  /** What the page renders before the form. assets is None when loading
      failed: `assets!.find` then throws, so the error alert after the two
      checks that read the list is never reached with a failed load. */
  datatype LinkScreen = Blank | RenderThrows | NotFoundScreen | UnauthorizedScreen | LoadErrorScreen | LinkForm(parent: Asset)

  function LinkScreenFor(u: User, loading: bool, assets: Option<seq<Asset>>, error: bool, id: int): (s: LinkScreen)
    ensures s == Blank <==> loading
    ensures s == RenderThrows <==> !loading && assets.None?
    ensures s == NotFoundScreen <==>
      !loading && assets.Some? && forall i :: 0 <= i < |assets.value| ==> assets.value[i].id != id
    ensures s == UnauthorizedScreen <==>
      !loading && assets.Some? && Find(assets.value, (a: Asset) => a.id == id).Some?
      && !HasRoleAccess(u, LinkAsset, Find(assets.value, (a: Asset) => a.id == id).value.labels)
    ensures s == LoadErrorScreen <==>
      !loading && assets.Some? && error && Find(assets.value, (a: Asset) => a.id == id).Some?
      && HasRoleAccess(u, LinkAsset, Find(assets.value, (a: Asset) => a.id == id).value.labels)
    ensures s.LinkForm? <==>
      !loading && assets.Some? && !error && Find(assets.value, (a: Asset) => a.id == id).Some?
      && HasRoleAccess(u, LinkAsset, Find(assets.value, (a: Asset) => a.id == id).value.labels)
    ensures s.LinkForm? ==> s.parent in assets.value && s.parent.id == id && HasRoleAccess(u, LinkAsset, s.parent.labels)
  {
    if loading then Blank
    else if assets.None? then RenderThrows
    else
      match Find(assets.value, (a: Asset) => a.id == id)
      case None => NotFoundScreen
      case Some(parent) =>
        if !HasRoleAccess(u, LinkAsset, parent.labels) then UnauthorizedScreen
        else if error then LoadErrorScreen
        else LinkForm(parent)
  }

  /** The Child Asset options: every other asset over whose labels the user
      has LinkAsset access, in list order. */
  function ChildOptions(u: User, assets: seq<Asset>, parent: Asset): (options: seq<Asset>)
    ensures forall i :: 0 <= i < |options| ==>
      options[i] in assets && options[i].id != parent.id && HasRoleAccess(u, LinkAsset, options[i].labels)
    ensures forall i :: 0 <= i < |assets| && assets[i].id != parent.id && HasRoleAccess(u, LinkAsset, assets[i].labels) ==>
      assets[i] in options
  {
    Filter(assets, (a: Asset) => a.id != parent.id && HasRoleAccess(u, LinkAsset, a.labels))
  }

  /** A parent is never offered as its own child. */
  lemma NoSelfLink(u: User, assets: seq<Asset>, parent: Asset)
    ensures parent !in ChildOptions(u, assets, parent)
  {
  }

  /** The child selection starts at -1 (none chosen), the relationship at ''. */
  const NoChild: int := -1

  /** `!assetA || !assetB || !relationship`: the parent object is always
      truthy, and -1 is truthy too, so only child id 0 or no relationship
      disables the button. */
  function LinkDisabled(assetB: int, relationship: string): (disabled: bool)
    ensures disabled <==> assetB == 0 || relationship == ""
    ensures !disabled && relationship in RelationshipTypes ==> RelationFromName(relationship).Some?
  {
    assetB == 0 || relationship == ""
  }

  /** Before any child is chosen the button is enabled as soon as a
      relationship is. */
  lemma EnabledWithoutChild(relationship: string)
    requires relationship != ""
    ensures !LinkDisabled(NoChild, relationship)
  {
  }

  /** handleLinkAssets as written: it returns true without a call whenever
      `assetB != -1`, so the only link it ever requests has child -1. */
  function HandleLinkAssetsAsWritten(parentId: int, assetB: int, relationship: string, confirm: bool,
                                     outcome: Outcome): (run: HandlerRun)
    ensures run.issued.Some? <==> assetB == NoChild && relationship != "" && confirm
    ensures run.issued.Some? ==> run.issued.value == LinkAssets(parentId, NoChild, relationship)
    ensures run.result <==> run.issued.None? || outcome == Succeeded
  {
    if assetB != NoChild || relationship == "" || !confirm then HandlerRun(None, true)
    else RunConfirmed(true, LinkAssets(parentId, assetB, relationship), outcome)
  }

  /** The discrepancy: choosing child 7 as a License and confirming requests
      nothing, yet reports success, so the success popup appears for a link
      that was never made. */
  lemma LinkAsWrittenDropsChosenChild()
    ensures !LinkDisabled(7, "License")
    ensures HandleLinkAssetsAsWritten(1, 7, "License", true, Succeeded) == HandlerRun(None, true)
  {
  }

  /** handleLinkAssets as evidently intended: return early when no child is
      chosen. */
  function HandleLinkAssets(parentId: int, assetB: int, relationship: string, confirm: bool,
                            outcome: Outcome): (run: HandlerRun)
    ensures run.issued.Some? <==> assetB != NoChild && relationship != "" && confirm
    ensures run.issued.Some? ==> run.issued.value == LinkAssets(parentId, assetB, relationship)
    ensures run.result <==> run.issued.None? || outcome == Succeeded
  {
    if assetB == NoChild || relationship == "" || !confirm then HandlerRun(None, true)
    else RunConfirmed(true, LinkAssets(parentId, assetB, relationship), outcome)
  }

  /** With the intended guard, every confirmed click on an enabled button with
      a chosen child and relationship links exactly that child, with that
      relationship, to the page's parent; the child is one of the options. */
  lemma ConfirmedLinkUsesSelection(u: User, assets: seq<Asset>, parent: Asset, child: Asset,
                                   relationship: string, outcome: Outcome)
    requires child in ChildOptions(u, assets, parent)
    requires child.id != NoChild
    requires relationship in RelationshipTypes
    ensures !LinkDisabled(child.id, relationship) || child.id == 0
    ensures HandleLinkAssets(parent.id, child.id, relationship, true, outcome).issued
         == Some(LinkAssets(parent.id, child.id, relationship))
    ensures child.id != parent.id
  {
  }

  /** Back and the completed popup both go to `/assets/${id}`, built from the
      route parameter as typed, not from the loaded parent. */
  function LinkReturnPath(routeId: string): (p: string)
    ensures forall n :: routeId == IntToString(n) ==> p == AssetPath(n)
  {
    "/assets/" + routeId
  }

  /** When the route parameter is the decimal form of the number the page
      looked the parent up by, the return path is the parent's own page. */
  lemma LinkReturnsToParent(u: User, assets: Option<seq<Asset>>, error: bool, routeId: string, n: int, parent: Asset)
    requires routeId == IntToString(n)
    requires LinkScreenFor(u, false, assets, error, n) == LinkForm(parent)
    ensures LinkReturnPath(routeId) == AssetPath(parent.id)
  {
  }
}

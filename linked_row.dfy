// src/components/LinkedRow.tsx: one row of linked-asset chips for a relation
// on the asset detail page, and when each chip offers to unlink.

module LinkedRow {
  import opened Seqs
  import opened Text
  import opened Domain
  import opened RoleUtils

  /** The asset's linked_to entries of one relation, in order. */
  function LinksOf(asset: Asset, relation: Relation): (links: seq<LinkedAsset>)
    ensures forall i :: 0 <= i < |links| ==> links[i] in asset.linkedTo && links[i].relation == relation
    ensures forall i :: 0 <= i < |asset.linkedTo| && asset.linkedTo[i].relation == relation ==> asset.linkedTo[i] in links
  {
    Filter(asset.linkedTo, (l: LinkedAsset) => l.relation == relation)
  }

  /** The row renders (heading and chips) exactly when the asset has a link
      of that relation. */
  function RowShown(asset: Asset, relation: Relation): (shown: bool)
    ensures shown <==> exists i :: 0 <= i < |asset.linkedTo| && asset.linkedTo[i].relation == relation
  {
    var links := LinksOf(asset, relation);
    if |links| > 0 then
      assert links[0] in asset.linkedTo;
      true
    else false
  }

  /** The three rows the detail page shows split the asset's links: each
      link is in exactly the row of its own relation. */
  lemma RowsPartitionLinks(asset: Asset, l: LinkedAsset, relation: Relation)
    requires l in asset.linkedTo
    ensures l in LinksOf(asset, relation) <==> l.relation == relation
  {
  }

  /** `assets.find((asset) => asset.id == id)`. */
  function AssetWithId(assets: seq<Asset>, id: int): (r: Option<Asset>)
    ensures r.Some? ==> r.value in assets && r.value.id == id
    ensures r.None? <==> forall i :: 0 <= i < |assets| ==> assets[i].id != id
  {
    Find(assets, (a: Asset) => a.id == id)
  }

  /** askConfirmDeleteLink is defined: both ends are in the asset list and the
      user has LinkAsset access over the labels of each (of the first asset
      with that id). */
  function UnlinkOffered(u: User, l: LinkedAsset, assets: seq<Asset>): (offered: bool)
    ensures offered ==> exists i :: 0 <= i < |assets| && assets[i].id == l.assetId
                                   && HasRoleAccess(u, LinkAsset, assets[i].labels)
    ensures offered ==> exists i :: 0 <= i < |assets| && assets[i].id == l.linkedId
                                   && HasRoleAccess(u, LinkAsset, assets[i].labels)
    ensures !offered && (exists i :: 0 <= i < |assets| && assets[i].id == l.assetId)
                     && (exists i :: 0 <= i < |assets| && assets[i].id == l.linkedId) ==>
      exists i :: 0 <= i < |assets| && (assets[i].id == l.assetId || assets[i].id == l.linkedId)
                  && !HasRoleAccess(u, LinkAsset, assets[i].labels)
  {
    var parent := AssetWithId(assets, l.assetId);
    var child := AssetWithId(assets, l.linkedId);
    parent.Some? && HasRoleAccess(u, LinkAsset, parent.value.labels)
    && child.Some? && HasRoleAccess(u, LinkAsset, child.value.labels)
  }

  /** A wildcard LinkAsset grant offers unlinking exactly when both ends are
      in the list. */
  lemma WildcardUnlinks(u: User, l: LinkedAsset, assets: seq<Asset>)
    requires Grants(u, LinkAsset, Wildcard)
    ensures UnlinkOffered(u, l, assets) <==>
      (exists i :: 0 <= i < |assets| && assets[i].id == l.assetId)
      && (exists i :: 0 <= i < |assets| && assets[i].id == l.linkedId)
  {
    if (exists i :: 0 <= i < |assets| && assets[i].id == l.assetId)
       && (exists i :: 0 <= i < |assets| && assets[i].id == l.linkedId) {
      assert AssetWithId(assets, l.assetId).Some?;
      assert AssetWithId(assets, l.linkedId).Some?;
    }
  }

  /** What one chip renders: its label, where a click goes, and whether it has
      a delete icon with its confirm dialog (both exist together). */
  datatype ChipView = ChipView(caption: string, target: string, unlink: bool)

  function AssetChip(u: User, l: LinkedAsset, assets: seq<Asset>): (c: ChipView)
    ensures c.caption == "#" + IntToString(l.assetId)
    ensures c.target == AssetPath(l.assetId)
    ensures c.unlink == UnlinkOffered(u, l, assets)
  {
    ChipView("#" + IntToString(l.assetId), AssetPath(l.assetId), UnlinkOffered(u, l, assets))
  }

  /** Chips of links to different assets are told apart by label and target. */
  lemma ChipsDistinct(u: User, l: LinkedAsset, m: LinkedAsset, assets: seq<Asset>)
    requires l.assetId != m.assetId
    ensures AssetChip(u, l, assets).caption != AssetChip(u, m, assets).caption
    ensures AssetChip(u, l, assets).target != AssetChip(u, m, assets).target
  {
    PathsInjective(l.assetId, m.assetId);
    if "#" + IntToString(l.assetId) == "#" + IntToString(m.assetId) {
      PrefixedIdInjective("#", l.assetId, m.assetId);
    }
  }

  /** handleConfirmDeleteLink: on confirm, unlink the entry's two ends. */
  function HandleConfirmDeleteLink(l: LinkedAsset, confirm: bool, outcome: Outcome): (run: HandlerRun)
    ensures !confirm ==> run == HandlerRun(None, true)
    ensures confirm ==> run.issued == Some(UnlinkAssets(l.assetId, l.linkedId))
    ensures run.result <==> !confirm || outcome == Succeeded
  {
    RunConfirmed(confirm, UnlinkAssets(l.assetId, l.linkedId), outcome)
  }
}

/**
 * The registry at the centre of the map server (`MapServerDataCenter`):
 * loaded tilesets by file name, the tile packages that failed to load and
 * are not retried, the fonts, and the searches over the division tree.
 */
module DataCenter {
  import opened Wrappers
  import opened JavaStrings
  import opened AdminDivision

  /** The suffixes of MBTiles databases and tile packages. */
  const FILE_EXTENSION_NAME_MBTILES := ".mbtiles"
  const FILE_EXTENSION_NAME_TPK := ".tpk"

  /**
   * A loaded tileset: whether opening it succeeded (`isValid`), and its
   * metadata. Opening the database or the package is done by the caller.
   */
  datatype TilesFileModel<M> = TilesFileModel(valid: bool, metaDataMap: map<string, M>)

  /** `StringUtils.hasLength`. */
  predicate HasLength(s: string) { |s| > 0 }

  /** The names `releaseDataSource` unloads when loaded: non-empty, ending ".mbtiles" or ".tpk". */
  predicate Releasable(fileName: string)
  {
    HasLength(fileName)
    && (EndsWith(fileName, FILE_EXTENSION_NAME_MBTILES) || EndsWith(fileName, FILE_EXTENSION_NAME_TPK))
  }

  class MapServerDataCenter<M, F> {
    var tilesMap: map<string, TilesFileModel<M>>
    var blockedTiles: set<string>
    var fontsMap: map<string, F>

    /** Only models that opened successfully are registered. */
    predicate AllLoadedValid()
      reads this
    {
      forall name :: name in tilesMap ==> tilesMap[name].valid
    }

    /** No name is both loaded and blocked. */
    predicate LoadedNotBlocked()
      reads this
    {
      tilesMap.Keys !! blockedTiles
    }

    constructor ()
      ensures tilesMap == map[] && blockedTiles == {} && fontsMap == map[]
      ensures AllLoadedValid() && LoadedNotBlocked()
    {
      tilesMap := map[];
      blockedTiles := {};
      fontsMap := map[];
    }

    /**
     * `initJdbcTemplate`: an MBTiles file not yet loaded is opened (`model`)
     * and registered if valid; a loaded name is never replaced.
     */
    method InitJdbcTemplate(name: string, model: TilesFileModel<M>)
      modifies this
      ensures tilesMap == if name !in old(tilesMap) && model.valid then old(tilesMap)[name := model] else old(tilesMap)
      ensures blockedTiles == old(blockedTiles) && fontsMap == old(fontsMap)
      ensures old(AllLoadedValid()) ==> AllLoadedValid()
      ensures old(LoadedNotBlocked()) && name !in blockedTiles ==> LoadedNotBlocked()
    {
      if name !in tilesMap {
        if model.valid {
          tilesMap := tilesMap[name := model];
        }
      }
    }

    /**
     * `indexTpk`: a package neither loaded nor blocked is opened (`model`);
     * a valid one is registered, an invalid one blocked for good.
     */
    method IndexTpk(name: string, model: TilesFileModel<M>)
      modifies this
      ensures name in old(tilesMap) || name in old(blockedTiles) ==>
        tilesMap == old(tilesMap) && blockedTiles == old(blockedTiles)
      ensures name !in old(tilesMap) && name !in old(blockedTiles) && model.valid ==>
        tilesMap == old(tilesMap)[name := model] && blockedTiles == old(blockedTiles)
      ensures name !in old(tilesMap) && name !in old(blockedTiles) && !model.valid ==>
        tilesMap == old(tilesMap) && blockedTiles == old(blockedTiles) + {name}
      ensures HasLength(name) && name !in old(tilesMap) && name !in old(blockedTiles) && model.valid ==>
        GetTileMetaData(name) == model.metaDataMap
      ensures fontsMap == old(fontsMap)
      ensures old(AllLoadedValid()) ==> AllLoadedValid()
      ensures old(LoadedNotBlocked()) ==> LoadedNotBlocked()
    {
      if name !in tilesMap && name !in blockedTiles {
        if model.valid {
          tilesMap := tilesMap[name := model];
        } else {
          blockedTiles := blockedTiles + {name};
        }
      }
    }

    /** `initFontsFile`: the font folder is registered under its name, replacing an earlier one. */
    method InitFontsFile(name: string, model: F)
      modifies this
      ensures fontsMap == old(fontsMap)[name := model]
      ensures tilesMap == old(tilesMap) && blockedTiles == old(blockedTiles)
      ensures HasLength(name) ==> GetFontFolder(name) == Some(model)
      ensures old(AllLoadedValid()) ==> AllLoadedValid()
      ensures old(LoadedNotBlocked()) ==> LoadedNotBlocked()
    {
      fontsMap := fontsMap[name := model];
    }

    /**
     * `releaseDataSource`: a loaded MBTiles database or tile package is
     * unloaded (its connection closed, which is not modelled); every other
     * entry stays. The name is not blocked, so it can be loaded again.
     */
    method ReleaseDataSource(fileName: string)
      modifies this
      ensures tilesMap == if Releasable(fileName) && fileName in old(tilesMap)
        then old(tilesMap) - {fileName} else old(tilesMap)
      ensures blockedTiles == old(blockedTiles) && fontsMap == old(fontsMap)
      ensures Releasable(fileName) ==> GetTileMetaData(fileName) == map[]
      ensures old(AllLoadedValid()) ==> AllLoadedValid()
      ensures old(LoadedNotBlocked()) ==> LoadedNotBlocked()
    {
      if EndsWith(fileName, FILE_EXTENSION_NAME_MBTILES) {
        if HasLength(fileName) && fileName in tilesMap {
          tilesMap := tilesMap - {fileName};
        }
      }
      if EndsWith(fileName, FILE_EXTENSION_NAME_TPK) {
        if HasLength(fileName) && fileName in tilesMap {
          tilesMap := tilesMap - {fileName};
        }
      }
    }

    /** `getTileMetaData`: the metadata of a loaded tileset, an empty map for an empty or unknown name. */
    function GetTileMetaData(fileName: string): (r: map<string, M>)
      reads this
      ensures !HasLength(fileName) || fileName !in tilesMap ==> r == map[]
      ensures HasLength(fileName) && fileName in tilesMap ==> r == tilesMap[fileName].metaDataMap
    {
      if HasLength(fileName) && fileName in tilesMap then tilesMap[fileName].metaDataMap else map[]
    }

    /** `getFontFolder`: the font model of a known non-empty name, or empty. */
    function GetFontFolder(fontName: string): (r: Option<F>)
      reads this
      ensures r.Some? <==> HasLength(fontName) && fontName in fontsMap
      ensures r.Some? ==> r.value == fontsMap[fontName]
    {
      if HasLength(fontName) && fontName in fontsMap then Some(fontsMap[fontName]) else None
    }
  }

  /** `contains(child, id)`: whether a direct child of the node carries the id. */
  method Contains<G(==)>(child: AdministrativeDivisionNode<G>, parentId: int) returns (r: bool)
    ensures r <==> exists k :: 0 <= k < |child.children| && child.children[k].id == parentId
  {
    var items := child.children;
    var i := 0;
    while i < |items|
      invariant 0 <= i <= |items|
      invariant forall k :: 0 <= k < i ==> items[k].id != parentId
    {
      if items[i].id == parentId {
        return true;
      }
      i := i + 1;
    }
    return false;
  }

  /** Adding the next footprint to what is searched keeps every earlier one covered. */
  lemma CoverOneMore<T>(reprs: seq<set<T>>, searched: set<T>, i: int)
    requires 0 <= i < |reprs|
    requires forall k :: 0 <= k < i ==> reprs[k] <= searched
    ensures forall k :: 0 <= k < i + 1 ==> reprs[k] <= searched + reprs[i]
  {
  }

  /**
   * `findNode(tmp, id)`: depth-first search of the subtree for a node with
   * the id; the root itself when it matches, empty when none does.
   */
  method FindNode<G(==)>(tmp: AdministrativeDivisionNode<G>, parentId: int) returns (r: Option<AdministrativeDivisionNode<G>>)
    requires tmp.Valid()
    ensures r.Some? ==> r.value in tmp.Repr && r.value.id == parentId
    ensures r.None? ==> forall n :: n in tmp.Repr ==> n.id != parentId
    ensures tmp.id == parentId ==> r == Some(tmp)
    decreases tmp.Repr
  {
    if tmp.id == parentId {
      return Some(tmp);
    }
    var children := tmp.children;
    ghost var reprs := tmp.ChildReprs();
    ghost var searched: set<AdministrativeDivisionNode<G>> := {};
    var i := 0;
    while i < |children|
      invariant 0 <= i <= |children|
      invariant forall n :: n in searched ==> n.id != parentId
      invariant forall k :: 0 <= k < i ==> reprs[k] <= searched
    {
      var item := children[i];
      tmp.ChildValid(i);
      if item.id == parentId {
        return Some(item);
      }
      var childOpt := FindNode(item, parentId);
      if childOpt.Some? {
        return childOpt;
      }
      CoverOneMore(reprs, searched, i);
      searched := searched + reprs[i];
      i := i + 1;
    }
    tmp.CoveredByChildren(reprs, searched);
    return None;
  }
}

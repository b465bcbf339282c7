/** Where attachment links lead, and which assets outlive a rebuild
    (wiki-mirror/src/markdown-projection.ts:507-553 and :621-693). */
module AssetLinks {
  import opened Options
  import opened Slugs
  import opened Forest
  import opened Attachments
  import opened Projection
  import opened Reconciliation

  /** In a written page every reference that resolves has become a link that leads, from the page's
      own directory, to the tracked asset; every other token is as rendered. */
  lemma LinksLeadToAssets(m: Manifest, es: seq<Entry>, frozen: seq<PageId>, store: Store, e: Entry, i: nat)
    requires Placed(es) && e in es && i < |e.body|
    ensures var body := Resolve(e, Some(store), m.files).body;
      && |body| == |e.body|
      && match e.body[i] {
           case Ref(sha) =>
             if Usable(store, m.files, sha) then
               && body[i].Link?
               && Follow(Dir(e.path), body[i].href) == AssetPath(store, sha)
               && AssetPath(store, sha) in NextState(m, es, frozen, Some(store)).files
             else body[i] == e.body[i]
           case _ => body[i] == e.body[i]
         }
  {
    if e.body[i].Ref? && Usable(store, m.files, e.body[i].sha) {
      var sha := e.body[i].sha;
      var p := AssetPath(store, sha);
      assert e.body[i] in e.body;
      RelativeLeadsBack(Dir(e.path), p);
      assert RefersTo(e, p, Some(store), m.files);
      TrackedExactly(m, es, frozen, Some(store), p);
    }
  }

  /** A tracked asset survives the sweep exactly when a written page refers to it or a kept frozen
      page lists it. */
  lemma AssetSurvivesExactly(m: Manifest, disk: Disk, es: seq<Entry>, frozen: seq<PageId>, store: Option<Store>,
      p: Path)
    requires Placed(es) && Agrees(m.files, disk)
    requires p in m.files && |p| > 0 && p[0] == ASSETS_DIR
    ensures p in RebuiltDisk(m, disk, es, frozen, store) <==>
      Wanted(p, es, store, m.files) || KeptBySome(p, m, PathsIn(es), frozen)
  {
    TrackedExactly(m, es, frozen, store, p);
    NothingStranded(m, disk, es, frozen, store, p);
    assert p !in PathsIn(es);
  }
}

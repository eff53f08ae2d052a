/**
  `download_channels_list_from_drive`: the channel catalogue is the file
  `channels.json` in the same Drive folder the retention sweep prunes. Its
  download and JSON parsing are an input: the list each file id holds.
*/
module Catalogue {
  import opened Wrappers
  import opened Retention

  const CatalogueName: string := "channels.json"

  /** The first file of the listing named `channels.json` (the query's `items[0]`). */
  function FindCatalogue(files: seq<DriveFile>): (r: Option<DriveFile>)
    ensures r.None? <==> forall f :: f in files ==> f.name != CatalogueName
    ensures r.Some? ==> r.value in files && r.value.name == CatalogueName
    ensures r.Some? ==> exists i :: 0 <= i < |files| && files[i] == r.value
                          && forall k :: 0 <= k < i ==> files[k].name != CatalogueName
  {
    if files == [] then None
    else if files[0].name == CatalogueName then Some(files[0])
    else
      assert forall f :: f in files[1..] ==> f in files;
      FindCatalogue(files[1..])
  }

  /**
    The catalogue `main` works from: `None` when the folder holds no
    `channels.json`, otherwise the channel list stored in the first one.
  */
  function DownloadChannelsList(files: seq<DriveFile>, contents: string -> seq<string>): (r: Option<seq<string>>)
    ensures r.None? <==> forall f :: f in files ==> f.name != CatalogueName
    ensures r.Some? ==> exists f :: f in files && f.name == CatalogueName && r.value == contents(f.id)
    ensures r.Some? ==> exists i :: 0 <= i < |files| && files[i].name == CatalogueName
                          && r.value == contents(files[i].id)
                          && forall k :: 0 <= k < i ==> files[k].name != CatalogueName
  {
    match FindCatalogue(files)
    case None => None
    case Some(f) => Some(contents(f.id))
  }

  /**
    The sweep goes over the listed files, `channels.json` included: once
    every listed copy of it is older than the retention window and its delete
    succeeds, the catalogue is gone and `main` finds no channels.
  */
  lemma StaleCatalogueIsSwept(folder: seq<DriveFile>, now: int, days: int, deleteOk: string -> bool,
                              contents: string -> seq<string>)
    requires forall f :: f in folder && f.name == CatalogueName ==>
               IsOlderThanDays(f.createdTime, now, days) && deleteOk(f.id)
    ensures DownloadChannelsList(Survivors(folder, now, days, deleteOk), contents) == None
  {
    forall f | f in Survivors(folder, now, days, deleteOk)
      ensures f.name != CatalogueName
    {
      SurvivorsExactly(folder, now, days, deleteOk, f);
    }
  }

  /** A `channels.json` younger than the window always survives the sweep and is read. */
  lemma FreshCatalogueIsRead(folder: seq<DriveFile>, now: int, days: int, deleteOk: string -> bool,
                             contents: string -> seq<string>, f: DriveFile)
    requires f in folder && f.name == CatalogueName && !IsOlderThanDays(f.createdTime, now, days)
    ensures DownloadChannelsList(Survivors(folder, now, days, deleteOk), contents).Some?
  {
    SurvivorsExactly(folder, now, days, deleteOk, f);
  }
}

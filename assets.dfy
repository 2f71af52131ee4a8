/**
 * Image loading: every requested image is fetched from the `img/`
 * directory, and the callback runs once every requested name has an image.
 * A failed load is reported like a successful one, so the callback also
 * runs when some images are broken.
 */
module Assets {
  import opened Host

  /** The image element a load or error event carries: its address and whether its data arrived. */
  datatype Image = Image(src: string, loaded: bool)

  /** The images by file name; `None` while a requested image has not reported back. */
  type Images = map<string, Option<Image>>

  /** Every name present has an image. */
  predicate Complete(images: Images) {
    forall name :: name in images ==> images[name].Some?
  }

  /** `lastIndexOf("/")`: the index of the last slash, or -1 when there is none. */
  function LastSlash(s: string): (r: int)
    ensures -1 <= r < |s|
  {
    if |s| == 0 then -1
    else if s[|s| - 1] == '/' then |s| - 1
    else LastSlash(s[..|s| - 1])
  }

  /** `LastSlash` finds a slash when there is one, and none follows it. */
  lemma {:induction false} LastSlashIsLast(s: string)
    ensures LastSlash(s) >= 0 ==> s[LastSlash(s)] == '/'
    ensures forall k :: LastSlash(s) < k < |s| ==> s[k] != '/'
  {
    if |s| > 0 && s[|s| - 1] != '/' {
      LastSlashIsLast(s[..|s| - 1]);
    }
  }

  /** The file name of an address: the text after its last slash, or all of it when it has none. */
  function FileNameOf(src: string): string {
    src[LastSlash(src) + 1..]
  }

  /** The file name is the slash-free tail of the address, cut just after a slash when it is not all of it. */
  lemma FileNameOfTail(src: string)
    ensures var r := FileNameOf(src);
      |r| <= |src| && src[|src| - |r|..] == r && '/' !in r &&
      (|r| < |src| ==> src[|src| - |r| - 1] == '/')
  {
    LastSlashIsLast(src);
  }

  /** The address each requested name is fetched from. */
  function Sources(filenames: seq<string>): (r: seq<string>)
    ensures |r| == |filenames|
    ensures forall i :: 0 <= i < |r| ==> r[i] == "img/" + filenames[i]
  {
    if filenames == [] then [] else Sources(filenames[..|filenames| - 1]) + ["img/" + filenames[|filenames| - 1]]
  }

  /** A name without a slash is recovered from any address that puts it after a slash. */
  lemma FileNameOfPath(dir: string, name: string)
    requires '/' !in name
    ensures FileNameOf(dir + "/" + name) == name
  {
    var s := dir + "/" + name;
    LastSlashIsLast(s);
    assert s[|dir|] == '/';
    assert forall k :: |dir| < k < |s| ==> s[k] == name[k - |dir| - 1];
    assert s[|dir| + 1..] == name;
  }

  /** Every requested name without a slash comes back as its own file name. */
  lemma SourcesNameTheirFiles(filenames: seq<string>)
    requires forall i :: 0 <= i < |filenames| ==> '/' !in filenames[i]
    ensures forall i :: 0 <= i < |filenames| ==> FileNameOf(Sources(filenames)[i]) == filenames[i]
  {
    forall i | 0 <= i < |filenames|
      ensures FileNameOf(Sources(filenames)[i]) == filenames[i]
    {
      FileNameOfPath("img", filenames[i]);
      assert "img/" + filenames[i] == "img" + "/" + filenames[i];
    }
  }

  /** The table before any image reports back: every requested name waits. */
  function Waiting(filenames: seq<string>): (r: Images)
    ensures r.Keys == set name | name in filenames
    ensures forall name :: name in r ==> r[name].None?
  {
    map name | name in filenames :: None
  }

  /** One load or error event: the image is filed under its file name. */
  function Record(images: Images, image: Image): Images {
    images[FileNameOf(image.src) := Some(image)]
  }

  /** The table after a run of events, in arrival order. */
  function RecordAll(images: Images, events: seq<Image>): Images {
    if events == [] then images else Record(RecordAll(images, events[..|events| - 1]), events[|events| - 1])
  }

  /** Recording one more event of a run files it on top of the table the earlier ones left. */
  lemma RecordAllSnoc(images: Images, events: seq<Image>, i: nat)
    requires i < |events|
    ensures RecordAll(images, events[..i + 1]) == Record(RecordAll(images, events[..i]), events[i])
  {
    assert events[..i + 1][..i] == events[..i];
  }

  /** An image once filed stays filed: later events only add or overwrite images. */
  lemma {:induction false} RecordAllKeepsFiled(images: Images, events: seq<Image>, name: string)
    requires name in images && images[name].Some?
    ensures name in RecordAll(images, events) && RecordAll(images, events)[name].Some?
  {
    if events != [] {
      RecordAllKeepsFiled(images, events[..|events| - 1], name);
    }
  }

  /** The name an event carries has its image once that event is recorded, whatever follows. */
  lemma {:induction false} RecordAllDelivers(images: Images, events: seq<Image>, i: nat)
    requires i < |events|
    ensures FileNameOf(events[i].src) in RecordAll(images, events)
    ensures RecordAll(images, events)[FileNameOf(events[i].src)].Some?
  {
    var init := events[..|events| - 1];
    if i < |events| - 1 {
      RecordAllDelivers(images, init, i);
      assert init[i] == events[i];
    }
  }

  /** A name no event carries keeps its entry. */
  lemma {:induction false} RecordAllSkips(images: Images, events: seq<Image>, name: string)
    requires name in images
    requires forall i :: 0 <= i < |events| ==> FileNameOf(events[i].src) != name
    ensures name in RecordAll(images, events) && RecordAll(images, events)[name] == images[name]
  {
    if events != [] {
      RecordAllSkips(images, events[..|events| - 1], name);
    }
  }

  /** A name that was not in the table before the events was added by one of them. */
  lemma {:induction false} RecordAllNew(images: Images, events: seq<Image>, name: string)
    requires name !in images && name in RecordAll(images, events)
    ensures exists i :: 0 <= i < |events| && FileNameOf(events[i].src) == name
  {
    if events != [] {
      var init := events[..|events| - 1];
      if FileNameOf(events[|events| - 1].src) != name {
        RecordAllNew(images, init, name);
        var i :| 0 <= i < |init| && FileNameOf(init[i].src) == name;
        assert events[i] == init[i];
      }
    }
  }

  /** When an image for every requested name has reported back, the table is complete. */
  lemma AllArrivedComplete(filenames: seq<string>, events: seq<Image>)
    requires forall name :: name in filenames ==> exists i :: 0 <= i < |events| && FileNameOf(events[i].src) == name
    ensures Complete(RecordAll(Waiting(filenames), events))
  {
    var start := Waiting(filenames);
    var images := RecordAll(start, events);
    forall name | name in images
      ensures images[name].Some?
    {
      if name !in start {
        RecordAllNew(start, events, name);
      }
      var i :| 0 <= i < |events| && FileNameOf(events[i].src) == name;
      RecordAllDelivers(start, events, i);
    }
  }

  /** A requested name comes back from its address however the page resolves `img/`. */
  lemma ResolvedName(base: string, name: string)
    requires '/' !in name
    ensures FileNameOf(base + ("img/" + name)) == name
  {
    FileNameOfPath(base + "img", name);
    assert base + ("img/" + name) == (base + "img") + "/" + name;
  }

  /**
   * When every address `loadImages` requested has reported back, by a load
   * or an error, the table is complete and the callback is due. The browser
   * reports each address resolved against the page's `base`.
   */
  lemma EveryRequestAnswered(filenames: seq<string>, base: string, events: seq<Image>)
    requires forall i :: 0 <= i < |filenames| ==> '/' !in filenames[i]
    requires forall i :: 0 <= i < |filenames| ==>
      exists j :: 0 <= j < |events| && events[j].src == base + Sources(filenames)[i]
    ensures Complete(RecordAll(Waiting(filenames), events))
  {
    forall name | name in filenames
      ensures exists j :: 0 <= j < |events| && FileNameOf(events[j].src) == name
    {
      var i :| 0 <= i < |filenames| && filenames[i] == name;
      var j :| 0 <= j < |events| && events[j].src == base + Sources(filenames)[i];
      assert Sources(filenames)[i] == "img/" + name;
      ResolvedName(base, name);
    }
    AllArrivedComplete(filenames, events);
  }

  /** While some requested name has not reported back, the table is not complete. */
  lemma MissingIncomplete(filenames: seq<string>, events: seq<Image>, name: string)
    requires name in filenames
    requires forall i :: 0 <= i < |events| ==> FileNameOf(events[i].src) != name
    ensures !Complete(RecordAll(Waiting(filenames), events))
  {
    RecordAllSkips(Waiting(filenames), events, name);
  }

  /** Once complete, the table stays complete whatever reports back next. */
  lemma CompleteStays(images: Images, image: Image)
    requires Complete(images)
    ensures Complete(Record(images, image))
  {
  }

  /** The table `loadImages` keeps, and the handler every image's load and error events share. */
  class ImageLoader {
    var images: Images

    /** Every requested name starts out waiting. */
    constructor(filenames: seq<string>)
      ensures images == Waiting(filenames)
    {
      images := map[];
      new;
      for i := 0 to |filenames|
        invariant images == Waiting(filenames[..i])
      {
        assert filenames[..i + 1] == filenames[..i] + [filenames[i]];
        images := images[filenames[i] := None];
      }
      assert filenames[..|filenames|] == filenames;
    }

    /** The scan over every key: true exactly when no entry is still waiting. */
    method FinishedLoading() returns (finished: bool)
      ensures finished <==> Complete(images)
    {
      finished := true;
      var keys := images.Keys;
      ghost var seen: set<string> := {};
      while keys != {}
        invariant keys + seen == images.Keys && keys !! seen
        invariant finished <==> forall name :: name in seen ==> images[name].Some?
        decreases keys
      {
        var key :| key in keys;
        if images[key].None? {
          finished := false;
        }
        keys := keys - {key};
        seen := seen + {key};
      }
    }

    /**
     * A load or error event for `image`: file it under its file name, then
     * report whether the callback is due, which it is exactly when the
     * table is now complete.
     */
    method OnLoad(image: Image) returns (fire: bool)
      modifies this
      ensures images == Record(old(images), image)
      ensures fire <==> Complete(images)
    {
      var filename := FileNameOf(image.src);
      images := images[filename := Some(image)];
      fire := FinishedLoading();
    }
  }

  /** After each event of a run, whether the table is then complete. */
  function Verdicts(images: Images, events: seq<Image>): (r: seq<bool>)
    ensures |r| == |events|
  {
    if events == [] then [] else Verdicts(images, events[..|events| - 1]) + [Complete(RecordAll(images, events))]
  }

  /** Verdict `k` is whether the table is complete once events `0..k` are recorded. */
  lemma {:induction false} VerdictsAt(images: Images, events: seq<Image>, k: nat)
    requires k < |events|
    ensures Verdicts(images, events)[k] <==> Complete(RecordAll(images, events[..k + 1]))
  {
    var init := events[..|events| - 1];
    if k < |events| - 1 {
      VerdictsAt(images, init, k);
      assert init[..k + 1] == events[..k + 1];
    } else {
      assert events[..k + 1] == events;
    }
  }

  /**
   * `loadImages` with the events it will see, in the order the browser
   * delivers them: after each event, whether the callback runs, which is
   * exactly when every name then in the table has an image.
   */
  method LoadImages(filenames: seq<string>, events: seq<Image>) returns (fired: seq<bool>)
    ensures |fired| == |events|
    ensures forall i :: 0 <= i < |events| ==> (fired[i] <==> Complete(RecordAll(Waiting(filenames), events[..i + 1])))
  {
    var loader := new ImageLoader(filenames);
    ghost var start := Waiting(filenames);
    fired := [];
    for i := 0 to |events|
      invariant loader.images == RecordAll(start, events[..i])
      invariant fired == Verdicts(start, events[..i])
    {
      RecordAllSnoc(start, events, i);
      var fire := loader.OnLoad(events[i]);
      assert events[..i + 1][..i] == events[..i];
      fired := fired + [fire];
    }
    assert events[..|events|] == events;
    forall i | 0 <= i < |events|
      ensures fired[i] <==> Complete(RecordAll(start, events[..i + 1]))
    {
      VerdictsAt(start, events, i);
    }
  }
}

/**
 * The list logic of the image upload component: how selected files are
 * capped by the remaining room, how their URLs are appended, how an image
 * is removed, and when the add tile is shown.
 */
module ImageUpload {
  import opened Wrappers
  import opened RegistrationTypes

  /** `maxCount = 1` */
  const DefaultMaxCount: int := 1

  /** End index of JavaScript's `list.slice(0, k)` on a list of length n (a negative k counts from the end). */
  function SliceEnd(n: nat, k: int): nat {
    if k >= 0 then (if k <= n then k else n)
    else if n + k >= 0 then n + k
    else 0
  }

  /** `Array.from(files).slice(0, maxCount - value.length)`: the files that get uploaded. */
  function Selected<F>(files: seq<F>, have: nat, maxCount: int): seq<F> {
    files[..SliceEnd(|files|, maxCount - have)]
  }

  /**
   * While the list is not over its maximum, at most `maxCount - have` files
   * are uploaded, the first ones in selection order.
   */
  lemma SelectedWithinRoom<F>(files: seq<F>, have: nat, maxCount: int)
    requires have <= maxCount
    ensures |Selected(files, have, maxCount)| == if |files| <= maxCount - have then |files| else maxCount - have
    ensures Selected(files, have, maxCount) == files[..|Selected(files, have, maxCount)|]
  {
  }

  /** `Promise.all` over the uploads: every URL in file order, or None as soon as one upload fails. */
  function AllUploaded(results: seq<Option<string>>): (r: Option<seq<string>>)
    ensures r.None? <==> exists k | 0 <= k < |results| :: results[k].None?
    ensures r.Some? ==> |r.value| == |results| && forall k | 0 <= k < |results| :: results[k] == Some(r.value[k])
  {
    if results == [] then Some([])
    else if results[0].None? then None
    else
      var rest := AllUploaded(results[1..]);
      if rest.None? then None else Some([results[0].value] + rest.value)
  }

  /** `[...value, ...urls.map(url => ({url}))]` */
  function Appended(value: seq<Image>, urls: seq<string>): (r: seq<Image>)
    ensures |r| == |value| + |urls|
    ensures r[..|value|] == value
    ensures forall k | 0 <= k < |urls| :: r[|value| + k] == Image(urls[k])
  {
    value + seq(|urls|, k requires 0 <= k < |urls| => Image(urls[k]))
  }

  /**
   * After a successful upload the new list is the old one followed by one
   * image per uploaded file, in file order, and it never grows past maxCount.
   */
  lemma UploadedListWithinMax<F>(value: seq<Image>, maxCount: int, files: seq<F>, results: seq<Option<string>>)
    requires |value| <= maxCount
    requires |results| == |Selected(files, |value|, maxCount)|
    requires AllUploaded(results).Some?
    ensures var r := Appended(value, AllUploaded(results).value);
      && |r| <= maxCount
      && r[..|value|] == value
      && forall k | 0 <= k < |results| :: Some(r[|value| + k].url) == results[k]
  {
    SelectedWithinRoom(files, |value|, maxCount);
  }

  /** Keeps the images of `value` whose position (counted from `offset`) is not `index`. */
  function KeepOthers(value: seq<Image>, index: int, offset: int): seq<Image> {
    if value == [] then []
    else (if offset == index then [] else [value[0]]) + KeepOthers(value[1..], index, offset + 1)
  }

  /** `value.filter((_, i) => i !== index)` */
  function RemoveAt(value: seq<Image>, index: int): seq<Image> {
    KeepOthers(value, index, 0)
  }

  /** Positions that never meet `index` are all kept. */
  lemma {:induction false} KeepOthersOutside(value: seq<Image>, index: int, offset: int)
    requires !(offset <= index < offset + |value|)
    ensures KeepOthers(value, index, offset) == value
  {
    if value != [] {
      KeepOthersOutside(value[1..], index, offset + 1);
      assert value == [value[0]] + value[1..];
    }
  }

  /** Cutting position `i > 0` out of `v` is keeping the head and cutting `i - 1` out of the tail. */
  lemma SpliceHead(v: seq<Image>, i: int)
    requires 0 < i < |v|
    ensures [v[0]] + (v[1..][..i - 1] + v[1..][i..]) == v[..i] + v[i + 1..]
  {
    assert v[..i] == [v[0]] + v[1..][..i - 1];
    assert v[i + 1..] == v[1..][i..];
  }

  /** The position that meets `index` is dropped and the others are kept. */
  lemma {:induction false} KeepOthersInside(value: seq<Image>, index: int, offset: int)
    requires offset <= index < offset + |value|
    ensures KeepOthers(value, index, offset) == value[..index - offset] + value[index - offset + 1..]
  {
    var tl := value[1..];
    if offset == index {
      KeepOthersOutside(tl, index, offset + 1);
      assert value[..0] + value[1..] == tl;
    } else {
      KeepOthersInside(tl, index, offset + 1);
      assert KeepOthers(value, index, offset) == [value[0]] + KeepOthers(tl, index, offset + 1);
      SpliceHead(value, index - offset);
    }
  }

  /**
   * `handleRemove(i)`: the list without its i-th image, the others in their
   * order; an index outside the list leaves it as it is.
   */
  lemma RemoveAtMeaning(value: seq<Image>, index: int)
    ensures 0 <= index < |value| ==> RemoveAt(value, index) == value[..index] + value[index + 1..]
    ensures 0 <= index < |value| ==> |RemoveAt(value, index)| == |value| - 1
    ensures !(0 <= index < |value|) ==> RemoveAt(value, index) == value
  {
    if 0 <= index < |value| {
      KeepOthersInside(value, index, 0);
    } else {
      KeepOthersOutside(value, index, 0);
    }
  }

  /** One mounted `ImageUpload`; `emitted` records the lists handed to `onChange`. */
  class ImageUploadView {
    const value: seq<Image>
    const maxCount: int
    const hasOnChange: bool
    var loading: bool
    /** The arguments of every `setLoading` call, in order. */
    var loadingHistory: seq<bool>
    /** The argument of every `onChange` call, in order. */
    var emitted: seq<seq<Image>>

    /** The props, with `value = []` and `maxCount = 1` when they are not given. */
    constructor (value: Option<seq<Image>>, maxCount: Option<int>, hasOnChange: bool)
      ensures this.value == value.GetOr([]) && this.maxCount == maxCount.GetOr(DefaultMaxCount)
      ensures this.hasOnChange == hasOnChange
      ensures !loading && loadingHistory == [] && emitted == []
    {
      this.value := value.GetOr([]);
      this.maxCount := maxCount.GetOr(DefaultMaxCount);
      this.hasOnChange := hasOnChange;
      loading := false;
      loadingHistory := [];
      emitted := [];
    }

    /** The add tile is rendered only while there is room. */
    predicate ShowsAddTile()
      reads this
    {
      |value| < maxCount
    }

    /**
     * `handleFileChange`: no files, no effect. Otherwise loading goes on, the
     * selected files are uploaded (their outcomes are `results`, in file
     * order), the appended list goes to `onChange` only if every upload
     * succeeded, and loading goes off again in every case.
     */
    method HandleFileChange<F>(files: seq<F>, results: seq<Option<string>>)
      requires |results| == |Selected(files, |value|, maxCount)|
      modifies this
      ensures files == [] ==>
        loading == old(loading) && loadingHistory == old(loadingHistory) && emitted == old(emitted)
      ensures files != [] ==> !loading && loadingHistory == old(loadingHistory) + [true, false]
      ensures files != [] ==>
        emitted == if AllUploaded(results).Some? && hasOnChange
                   then old(emitted) + [Appended(value, AllUploaded(results).value)]
                   else old(emitted)
    {
      if files == [] {
        return;
      }
      loading := true;
      loadingHistory := loadingHistory + [true];
      var urls := AllUploaded(results);
      if urls.Some? && hasOnChange {
        emitted := emitted + [Appended(value, urls.value)];
      }
      loading := false;
      loadingHistory := loadingHistory + [false];
    }

    /** `handleRemove(index)` */
    method HandleRemove(index: int)
      modifies this
      ensures loading == old(loading) && loadingHistory == old(loadingHistory)
      ensures emitted == if hasOnChange then old(emitted) + [RemoveAt(value, index)] else old(emitted)
    {
      if hasOnChange {
        emitted := emitted + [RemoveAt(value, index)];
      }
    }
  }

  /** With the default maximum of one, the add tile shows exactly while the list is empty. */
  lemma DefaultTileRule(v: ImageUploadView)
    requires v.maxCount == DefaultMaxCount
    ensures v.ShowsAddTile() <==> v.value == []
  {
  }

  /**
   * While the add tile shows, a non-empty selection uploads at least one
   * file; once the list is full, a selection uploads nothing.
   */
  lemma AddTileMeaning<F>(v: ImageUploadView, files: seq<F>)
    ensures v.ShowsAddTile() ==> |Selected(files, |v.value|, v.maxCount)| >= (if files == [] then 0 else 1)
    ensures !v.ShowsAddTile() && |v.value| == v.maxCount ==> Selected(files, |v.value|, v.maxCount) == []
  {
  }
}

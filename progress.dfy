/** The list-patching helpers of `utils/progress.ts`. Each helper maps over the list and
    replaces an item by `{ ...item, ...updates }` when it is selected; the override-merge
    itself is passed in as `patch` (see `Merge` below for progress records and
    `Media.Apply` for media records). */
module Progress {
  import opened Wrappers

  /** `updateProgressByIndex`: patch the item at `index`, keep every other item. */
  function UpdateByIndex<T>(items: seq<T>, index: int, patch: T -> T): (r: seq<T>)
    ensures |r| == |items|
    ensures 0 <= index < |items| ==> r[index] == patch(items[index])
    ensures forall i :: 0 <= i < |items| && i != index ==> r[i] == items[i]
    ensures !(0 <= index < |items|) ==> r == items
  {
    seq(|items|, i requires 0 <= i < |items| => if i == index then patch(items[i]) else items[i])
  }

  /** `updateProgressByPredicate`: patch every item the predicate selects, not only the first. */
  function UpdateWhere<T>(items: seq<T>, selected: T -> bool, patch: T -> T): (r: seq<T>)
    ensures |r| == |items|
    ensures forall i :: 0 <= i < |items| && selected(items[i]) ==> r[i] == patch(items[i])
    ensures forall i :: 0 <= i < |items| && !selected(items[i]) ==> r[i] == items[i]
    ensures (forall i :: 0 <= i < |items| ==> !selected(items[i])) ==> r == items
  {
    seq(|items|, i requires 0 <= i < |items| => if selected(items[i]) then patch(items[i]) else items[i])
  }

  /** `updateProgressByKey`: patch every item whose `key` field equals `keyValue`. */
  function UpdateByKey<T, K(==)>(items: seq<T>, key: T -> K, keyValue: K, patch: T -> T): (r: seq<T>)
    ensures |r| == |items|
    ensures forall i :: 0 <= i < |items| ==>
      r[i] == if key(items[i]) == keyValue then patch(items[i]) else items[i]
    ensures r == UpdateWhere(items, x => key(x) == keyValue, patch)
  {
    seq(|items|, i requires 0 <= i < |items| => if key(items[i]) == keyValue then patch(items[i]) else items[i])
  }

  /** In range, an index update is a sequence update at that index. */
  lemma UpdateByIndexInRange<T>(items: seq<T>, index: int, patch: T -> T)
    requires 0 <= index < |items|
    ensures UpdateByIndex(items, index, patch) == items[index := patch(items[index])]
  {
  }

  /** An idempotent patch applied twice at the same index is the same as applied once. */
  lemma UpdateByIndexIdempotent<T>(items: seq<T>, index: int, patch: T -> T)
    requires forall x :: patch(patch(x)) == patch(x)
    ensures UpdateByIndex(UpdateByIndex(items, index, patch), index, patch) == UpdateByIndex(items, index, patch)
  {
  }

  /** An idempotent patch applied twice to the selected items is the same as applied once. */
  lemma UpdateWhereIdempotent<T>(items: seq<T>, selected: T -> bool, patch: T -> T)
    requires forall x :: patch(patch(x)) == patch(x)
    ensures UpdateWhere(UpdateWhere(items, selected, patch), selected, patch) == UpdateWhere(items, selected, patch)
  {
  }

  /** Two successive updates of one index are one update with the composed patch. */
  lemma UpdateByIndexCompose<T>(items: seq<T>, index: int, first: T -> T, second: T -> T)
    ensures UpdateByIndex(UpdateByIndex(items, index, first), index, second)
         == UpdateByIndex(items, index, x => second(first(x)))
  {
  }

  /** The statuses a transfer item goes through (`ProgressModal`'s `status`). */
  datatype Status = Pending | Uploading | Downloading | Completed | Error

  /** One row of an upload or download progress list. */
  datatype ProgressItem<F> = ProgressItem(file: F, progress: int, status: Status)

  /** `Partial<ProgressItem>`: the fields an update mentions. */
  datatype ProgressPatch<F> = ProgressPatch(file: Option<F>, progress: Option<int>, status: Option<Status>)

  /** `{ ...item, ...updates }`: the mentioned fields override, the others keep their values. */
  function Merge<F>(item: ProgressItem<F>, updates: ProgressPatch<F>): (r: ProgressItem<F>)
    ensures r.file == updates.file.GetOr(item.file)
    ensures r.progress == updates.progress.GetOr(item.progress)
    ensures r.status == updates.status.GetOr(item.status)
  {
    ProgressItem(updates.file.GetOr(item.file), updates.progress.GetOr(item.progress),
                 updates.status.GetOr(item.status))
  }

  /** The merge as a patch function for the helpers above. */
  function Patcher<F>(updates: ProgressPatch<F>): ProgressItem<F> -> ProgressItem<F> {
    item => Merge(item, updates)
  }

  /** Override-merge is idempotent. */
  lemma MergeIdempotent<F>(updates: ProgressPatch<F>)
    ensures forall x :: Patcher(updates)(Patcher(updates)(x)) == Patcher(updates)(x)
  {
  }

  /** Two merges in a row are one merge in which the later update wins field by field. */
  lemma MergeTwice<F>(item: ProgressItem<F>, a: ProgressPatch<F>, b: ProgressPatch<F>)
    ensures Merge(Merge(item, a), b)
         == Merge(item, ProgressPatch(if b.file.Some? then b.file else a.file,
                                      if b.progress.Some? then b.progress else a.progress,
                                      if b.status.Some? then b.status else a.status))
  {
  }

  /** A status-only update. */
  function StatusPatch<F>(s: Status): ProgressPatch<F> {
    ProgressPatch(None, None, Some(s))
  }

  /** An update of progress and status together. */
  function ProgressStatusPatch<F>(p: int, s: Status): ProgressPatch<F> {
    ProgressPatch(None, Some(p), Some(s))
  }
}

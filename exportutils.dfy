/**
 * Audacity's export utilities (lib-import-export/ExportUtils.cpp): the
 * registry of interactive export hooks, kept sorted by priority; running
 * the hooks until one stops the export; choosing the wave tracks to export;
 * and reading the parameters out of an export options editor.
 *
 * Hooks, tracks and editors are objects of the application; here they are
 * values carrying only the attributes these functions look at.
 */
module ExportUtils {
  import opened Options

  // ---------------------------------------------------------------------
  // Export hooks
  // ---------------------------------------------------------------------

  /** What a hook tells the export driver. */
  datatype HookResult = Handled | Cancel | Continue

  /** A registered callable, known by identity only. */
  datatype Hook = Hook(id: nat)

  /** ExportHookElement: a hook and the priority it was registered with. */
  datatype HookElement = HookElement(hook: Hook, priority: int)

  /** Priorities never increase along the list. */
  predicate Sorted(hooks: seq<HookElement>)
  {
    forall i, j :: 0 <= i < j < |hooks| ==> hooks[i].priority >= hooks[j].priority
  }

  /**
   * Reference definition of registering `e`: walk the list and place `e`
   * in front of the first element of strictly lower priority.
   */
  function Inserted(hooks: seq<HookElement>, e: HookElement): (r: seq<HookElement>)
    ensures |r| == |hooks| + 1
  {
    if hooks == [] then [e]
    else if e.priority > hooks[0].priority then [e] + hooks
    else [hooks[0]] + Inserted(hooks[1..], e)
  }

  /** Registering adds exactly the new element and loses none. */
  lemma {:induction false} InsertedAddsOne(hooks: seq<HookElement>, e: HookElement)
    ensures multiset(Inserted(hooks, e)) == multiset(hooks) + multiset{e}
    decreases |hooks|
  {
    if hooks != [] && e.priority <= hooks[0].priority {
      InsertedAddsOne(hooks[1..], e);
      assert hooks == [hooks[0]] + hooks[1..];
    }
  }

  /** Where `Inserted` puts an element of priority p: past every element of priority >= p it meets. */
  function InsertIndex(hooks: seq<HookElement>, p: int): (k: nat)
    ensures k <= |hooks|
    ensures forall j :: 0 <= j < k ==> hooks[j].priority >= p
    ensures k < |hooks| ==> hooks[k].priority < p
  {
    if hooks == [] || p > hooks[0].priority then 0
    else 1 + InsertIndex(hooks[1..], p)
  }

  /**
   * Registering splices the new element in at `InsertIndex`, so the old
   * hooks keep their relative order and every hook in front of it has
   * priority at least its own: equal priorities are served first come,
   * first served.
   */
  lemma {:induction false} InsertedSplices(hooks: seq<HookElement>, e: HookElement)
    ensures var k := InsertIndex(hooks, e.priority);
      Inserted(hooks, e) == hooks[..k] + [e] + hooks[k..]
    decreases |hooks|
  {
    if hooks != [] && e.priority <= hooks[0].priority {
      var tail := hooks[1..];
      InsertedSplices(tail, e);
      var k := InsertIndex(tail, e.priority);
      calc {
        Inserted(hooks, e);
        [hooks[0]] + Inserted(tail, e);
        [hooks[0]] + (tail[..k] + [e] + tail[k..]);
        { assert hooks[..k + 1] == [hooks[0]] + tail[..k];
          assert hooks[k + 1..] == tail[k..]; }
        hooks[..k + 1] + [e] + hooks[k + 1..];
      }
      assert InsertIndex(hooks, e.priority) == k + 1;
    } else {
      assert InsertIndex(hooks, e.priority) == 0;
      assert hooks[..0] + [e] + hooks[0..] == [e] + hooks;
    }
  }

  /** On a sorted list, every hook behind the insertion point has lower priority than the new one. */
  lemma InsertIndexSplits(hooks: seq<HookElement>, p: int)
    requires Sorted(hooks)
    ensures forall j :: InsertIndex(hooks, p) <= j < |hooks| ==> hooks[j].priority < p
  {
    var k := InsertIndex(hooks, p);
    forall j | k <= j < |hooks|
      ensures hooks[j].priority < p
    {
      assert hooks[k].priority >= hooks[j].priority;
    }
  }

  /** Registering keeps the list sorted. */
  lemma InsertedSorted(hooks: seq<HookElement>, e: HookElement)
    requires Sorted(hooks)
    ensures Sorted(Inserted(hooks, e))
  {
    InsertedSplices(hooks, e);
    InsertIndexSplits(hooks, e.priority);
    var k := InsertIndex(hooks, e.priority);
    var r := Inserted(hooks, e);
    forall i, j | 0 <= i < j < |r|
      ensures r[i].priority >= r[j].priority
    {
      if i < k && j > k {
        assert r[i] == hooks[i] && r[j] == hooks[j - 1];
      } else if i < k && j == k {
        assert r[i] == hooks[i];
      } else if i > k {
        assert r[i] == hooks[i - 1] && r[j] == hooks[j - 1];
      } else if i == k {
        assert r[j] == hooks[j - 1];
      } else {
        assert r[i] == hooks[i] && r[j] == hooks[j];
      }
    }
  }

  /** On a sorted list, a split point with priorities >= p before it and < p after it is `InsertIndex`. */
  lemma {:induction false} SplitIsInsertIndex(hooks: seq<HookElement>, p: int, k: nat)
    requires k <= |hooks|
    requires forall j :: 0 <= j < k ==> hooks[j].priority >= p
    requires forall j :: k <= j < |hooks| ==> hooks[j].priority < p
    ensures InsertIndex(hooks, p) == k
    decreases |hooks|
  {
    if k > 0 {
      SplitIsInsertIndex(hooks[1..], p, k - 1);
    }
  }

  /**
   * The hooks of the application. The source keeps them in a function-local
   * static vector; here the registry is an object owning that list.
   */
  class HookRegistry {
    var hooks: seq<HookElement>

    ghost predicate Valid()
      reads this
    {
      Sorted(hooks)
    }

    /** The static vector starts out empty. */
    constructor ()
      ensures hooks == [] && Valid()
    {
      hooks := [];
    }

    /**
     * std::upper_bound with `priority > element.priority` as the order: a
     * binary search for the first hook of priority strictly below p.
     */
    method UpperBound(p: int) returns (k: nat)
      requires Valid()
      ensures k == InsertIndex(hooks, p)
    {
      var lo, hi := 0, |hooks|;
      while lo < hi
        invariant 0 <= lo <= hi <= |hooks|
        invariant forall j :: 0 <= j < lo ==> hooks[j].priority >= p
        invariant forall j :: hi <= j < |hooks| ==> hooks[j].priority < p
        decreases hi - lo
      {
        var mid := lo + (hi - lo) / 2;
        if p > hooks[mid].priority {
          hi := mid;
        } else {
          lo := mid + 1;
        }
      }
      SplitIsInsertIndex(hooks, p, lo);
      k := lo;
    }

    /** RegisterExportHook: insert at the upper bound of `priority`. */
    method RegisterExportHook(hook: Hook, priority: int)
      requires Valid()
      modifies this
      ensures Valid()
      ensures hooks == Inserted(old(hooks), HookElement(hook, priority))
    {
      var k := UpperBound(priority);
      InsertedSplices(hooks, HookElement(hook, priority));
      InsertedSorted(hooks, HookElement(hook, priority));
      hooks := hooks[..k] + [HookElement(hook, priority)] + hooks[k..];
    }

    /**
     * PerformInteractiveExport: call the hooks in list order and return at
     * the first answer other than Continue. `answer` stands for calling a
     * hook on the project and format; the result is the hooks called.
     */
    method PerformInteractiveExport(answer: Hook -> HookResult) returns (called: seq<Hook>)
      ensures called == Invoked(hooks, answer)
    {
      called := [];
      for i := 0 to |hooks|
        invariant called == Invoked(hooks[..i], answer)
        invariant forall j :: 0 <= j < i ==> answer(hooks[j].hook) == Continue
      {
        InvokedExtends(hooks[..i], hooks[i], answer);
        assert hooks[..i + 1] == hooks[..i] + [hooks[i]];
        called := called + [hooks[i].hook];
        if answer(hooks[i].hook) != Continue {
          InvokedStops(hooks, i, answer);
          return;
        }
      }
      assert hooks[..|hooks|] == hooks;
    }
  }

  /**
   * The hooks a run calls: each in turn up to and including the first one
   * whose answer is not Continue, or all of them.
   */
  function Invoked(hooks: seq<HookElement>, answer: Hook -> HookResult): (r: seq<Hook>)
    ensures |r| <= |hooks|
  {
    if hooks == [] then []
    else if answer(hooks[0].hook) != Continue then [hooks[0].hook]
    else [hooks[0].hook] + Invoked(hooks[1..], answer)
  }

  /**
   * The calls of a run are the hooks in list order; every one but the
   * last said Continue; and the run stops early only after an answer other
   * than Continue.
   */
  lemma {:induction false} InvokedMeaning(hooks: seq<HookElement>, answer: Hook -> HookResult)
    ensures var r := Invoked(hooks, answer);
      (forall j :: 0 <= j < |r| ==> r[j] == hooks[j].hook) &&
      (forall j :: 0 <= j < |r| - 1 ==> answer(hooks[j].hook) == Continue) &&
      (|r| < |hooks| ==> |r| > 0 && answer(hooks[|r| - 1].hook) != Continue)
    decreases |hooks|
  {
    if hooks != [] && answer(hooks[0].hook) == Continue {
      InvokedMeaning(hooks[1..], answer);
    }
  }

  /** While every hook so far said Continue, one more hook is one more call. */
  lemma {:induction false} InvokedExtends(hooks: seq<HookElement>, e: HookElement, answer: Hook -> HookResult)
    requires forall j :: 0 <= j < |hooks| ==> answer(hooks[j].hook) == Continue
    ensures Invoked(hooks + [e], answer) == Invoked(hooks, answer) + [e.hook]
    decreases |hooks|
  {
    if hooks != [] {
      assert (hooks + [e])[1..] == hooks[1..] + [e];
      InvokedExtends(hooks[1..], e, answer);
    }
  }

  /** A hook that stops the run hides every later hook. */
  lemma {:induction false} InvokedStops(hooks: seq<HookElement>, i: nat, answer: Hook -> HookResult)
    requires i < |hooks| && answer(hooks[i].hook) != Continue
    requires forall j :: 0 <= j < i ==> answer(hooks[j].hook) == Continue
    ensures Invoked(hooks, answer) == Invoked(hooks[..i + 1], answer)
    decreases i
  {
    if i > 0 {
      assert hooks[..i + 1][1..] == hooks[1..][..i];
      InvokedStops(hooks[1..], i - 1, answer);
    }
  }

  // ---------------------------------------------------------------------
  // Track selection
  // ---------------------------------------------------------------------

  /** A track of the project, with the flags the export looks at. */
  datatype Track = Track(id: nat, isWave: bool, selected: bool, solo: bool, mute: bool)

  /** Some wave track of the list is soloed. */
  predicate AnySolo(tracks: seq<Track>)
  {
    exists i :: 0 <= i < |tracks| && tracks[i].isWave && tracks[i].solo
  }

  /**
   * The filter of FindExportWaveTracks: a wave track, selected when only
   * the selection is exported, and soloed when some track is, otherwise
   * not muted.
   */
  predicate Exported(t: Track, selectedOnly: bool, anySolo: bool)
  {
    t.isWave && (!selectedOnly || t.selected) && (if anySolo then t.solo else !t.mute)
  }

  /** The tracks of `tracks` the filter keeps, in list order. */
  function Keep(tracks: seq<Track>, selectedOnly: bool, anySolo: bool): (r: seq<Track>)
    ensures |r| <= |tracks|
    ensures forall t :: t in r <==> t in tracks && Exported(t, selectedOnly, anySolo)
  {
    if tracks == [] then []
    else
      (if Exported(tracks[0], selectedOnly, anySolo) then [tracks[0]] else [])
        + Keep(tracks[1..], selectedOnly, anySolo)
  }

  /** FindExportWaveTracks over the list of the project's tracks. */
  function FindExportWaveTracks(tracks: seq<Track>, selectedOnly: bool): (r: seq<Track>)
    ensures forall t :: t in r ==> t in tracks && t.isWave
    ensures selectedOnly ==> forall t :: t in r ==> t.selected
    ensures AnySolo(tracks) ==> forall t :: t in r ==> t.solo
    ensures !AnySolo(tracks) ==> forall t :: t in r ==> !t.mute
    ensures forall t :: t in tracks && Exported(t, selectedOnly, AnySolo(tracks)) ==> t in r
  {
    Keep(tracks, selectedOnly, AnySolo(tracks))
  }

  /** Keeping is order preserving: the tracks kept from a prefix are a prefix of those kept from the whole. */
  lemma {:induction false} KeepPrefix(tracks: seq<Track>, n: nat, selectedOnly: bool, anySolo: bool)
    requires n <= |tracks|
    ensures Keep(tracks[..n], selectedOnly, anySolo) <= Keep(tracks, selectedOnly, anySolo)
    decreases n
  {
    if n > 0 {
      assert tracks[..n][1..] == tracks[1..][..n - 1];
      KeepPrefix(tracks[1..], n - 1, selectedOnly, anySolo);
    }
  }

  // ---------------------------------------------------------------------
  // Export parameters
  // ---------------------------------------------------------------------

  /** An export option; only its id is used here. */
  datatype ExportOption = ExportOption(id: int)

  /**
   * An export options editor as seen through GetOptionsCount, GetOption
   * and GetValue: `options[i]` is None when GetOption(i) fails, and an id
   * absent from `values` is one GetValue fails for.
   */
  datatype Editor<V> = Editor(options: seq<Option<ExportOption>>, values: map<int, V>)

  /** Both calls succeed for index i. */
  predicate Available<V>(editor: Editor<V>, i: nat)
    requires i < |editor.options|
  {
    editor.options[i].Some? && editor.options[i].value.id in editor.values
  }

  /** The (id, value) pairs of the first n options, in index order. */
  function ParametersUpTo<V>(editor: Editor<V>, n: nat): (r: seq<(int, V)>)
    requires n <= |editor.options|
    ensures |r| <= n
  {
    if n == 0 then []
    else
      ParametersUpTo(editor, n - 1) +
        (if Available(editor, n - 1)
         then [(editor.options[n - 1].value.id, editor.values[editor.options[n - 1].value.id])]
         else [])
  }

  /**
   * A pair is in the parameters of the first n options exactly when some
   * index below n has both calls succeed with that id and value.
   */
  lemma {:induction false} ParametersExactly<V>(editor: Editor<V>, n: nat, id: int, v: V)
    requires n <= |editor.options|
    ensures (id, v) in ParametersUpTo(editor, n) <==>
      exists i :: 0 <= i < n && editor.options[i] == Some(ExportOption(id)) &&
        id in editor.values && editor.values[id] == v
  {
    if n > 0 {
      ParametersExactly(editor, n - 1, id, v);
      if editor.options[n - 1] == Some(ExportOption(id)) && id in editor.values && editor.values[id] == v {
        assert (id, v) in ParametersUpTo(editor, n);
      }
    }
  }

  /** Later options only append: the parameters of a prefix of the options are a prefix of the parameters. */
  lemma {:induction false} ParametersInOrder<V>(editor: Editor<V>, m: nat, n: nat)
    requires m <= n <= |editor.options|
    ensures ParametersUpTo(editor, m) <= ParametersUpTo(editor, n)
    decreases n - m
  {
    if m < n {
      ParametersInOrder(editor, m, n - 1);
    }
  }

  /** ParametersFromEditor: collect the pair of every option both calls succeed for. */
  method ParametersFromEditor<V>(editor: Editor<V>) returns (parameters: seq<(int, V)>)
    ensures parameters == ParametersUpTo(editor, |editor.options|)
  {
    parameters := [];
    var count := |editor.options|;
    for i := 0 to count
      invariant parameters == ParametersUpTo(editor, i)
    {
      var option := editor.options[i];
      if option.Some? && option.value.id in editor.values {
        parameters := parameters + [(option.value.id, editor.values[option.value.id])];
      }
    }
  }
}

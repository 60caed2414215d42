/** `generate_shape` in `main.py`: up to three attempts at producing a
    labelled shape, each accepted only if every check passes and saving
    succeeds. Shape generation, labelling and saving are not computed here:
    each attempt's observable outcome is an input. */
module Generation {
  import opened Wrappers

  /** The OCC types `isinstance` distinguishes: the three supported ones
      and everything else. */
  datatype ShapeKind = Solid | Compound | CompSolid | Other

  /** A generated shape, as far as the loop looks at it: its type and the
      number of faces `occ_utils.list_face` returns. */
  datatype Shape = Shape(kind: ShapeKind, faceCount: nat)

  /** What one pass through the loop body sees: either
      `feature_creation.shape_from_directive` raises, or it returns a shape
      (possibly `None`) and labels, after which
      - `listed` is false when unpacking `labels` into its three maps or
        `occ_utils.list_face` raises;
      - `seg`, `inst`, `bottom` are the lists `get_segmentation_label`,
        `get_instance_label` and again `get_segmentation_label` return, `None`
        where that call raises;
      - `saveFails` says whether `save_shape` or `save_label` raises.
      The steps after `shape_from_directive` and before the save are outside
      any `try`: an exception there leaves `generate_shape`. */
  datatype Attempt =
    | GenerationFails
    | Generated(shape: Option<Shape>, listed: bool, seg: Option<seq<int>>, inst: Option<seq<seq<int>>>,
                bottom: Option<seq<int>>, saveFails: bool)

  /** How a pass ends: one value per `continue`, `Saved` for the final
      `break`, and `Raised` for an exception that leaves `generate_shape`. */
  datatype Verdict =
    | GenerateFailed | NoShape | Unsupported | NoFaces
    | SegMismatch | InstMismatch | BottomMismatch | SaveFailed | Saved | Raised

  /** The labels `save_label` writes for one shape. */
  datatype Labels = Labels(seg: seq<int>, inst: seq<seq<int>>, bottom: seq<int>)

  /** One entry of the label file, `[shape_name, {'seg': ..., 'inst': ...,
      'bottom': ...}]`. */
  datatype Entry = Entry(name: string, labels: Labels)

  /** An attempt that passes every check and saves: a shape of a supported
      type with at least one face, every labelling call returning a list
      with one entry per face, and no exception while saving. */
  predicate Acceptable(a: Attempt) {
    && a.Generated?
    && a.shape.Some?
    && a.shape.value.kind != Other
    && a.listed
    && a.shape.value.faceCount > 0
    && a.seg.Some? && |a.seg.value| == a.shape.value.faceCount
    && a.inst.Some? && |a.inst.value| == a.shape.value.faceCount
    && a.bottom.Some? && |a.bottom.value| == a.shape.value.faceCount
    && !a.saveFails
  }

  /** An attempt whose labelling raises: the shape is supported and some
      unguarded call raises before a check sends the loop round again. */
  predicate Raises(a: Attempt) {
    && a.Generated?
    && a.shape.Some?
    && a.shape.value.kind != Other
    && var n := a.shape.value.faceCount;
       || !a.listed
       || (n > 0 && a.seg.None?)
       || (n > 0 && a.seg.Some? && |a.seg.value| == n && a.inst.None?)
       || (n > 0 && a.seg.Some? && |a.seg.value| == n && a.inst.Some? && |a.inst.value| == n && a.bottom.None?)
  }

  /** The loop body's checks, in their order in the source. An attempt is
      saved exactly when it is acceptable, raises exactly when its
      labelling raises, and otherwise the verdict names the first check it
      fails. */
  function VerdictOf(a: Attempt): (v: Verdict)
    ensures v == Saved <==> Acceptable(a)
    ensures v == Raised <==> Raises(a)
    ensures v == NoFaces ==> a.Generated? && a.shape.Some? && a.shape.value.faceCount == 0
    ensures v == SaveFailed ==> a.Generated? && a.saveFails
  {
    match a
    case GenerationFails => GenerateFailed
    case Generated(shape, listed, seg, inst, bottom, saveFails) =>
      if shape.None? then NoShape
      else if shape.value.kind == Other then Unsupported
      else if !listed then Raised
      else if shape.value.faceCount == 0 then NoFaces
      else if seg.None? then Raised
      else if |seg.value| != shape.value.faceCount then SegMismatch
      else if inst.None? then Raised
      else if |inst.value| != shape.value.faceCount then InstMismatch
      else if bottom.None? then Raised
      else if |bottom.value| != shape.value.faceCount then BottomMismatch
      else if saveFails then SaveFailed
      else Saved
  }

  /** How `crosscheck.py` reads a label file back: `file_id, label =
      label_data[0]` and the three lists under `seg`, `inst`, `bottom`; an
      empty file has no first entry. */
  function ReadLabelFile(data: seq<Entry>): Option<Entry> {
    if |data| == 0 then None else Some(data[0])
  }

  /** The label-count checks of `crosscheck.py`: every list read back has one
      entry per face. */
  predicate CrosscheckAccepts(data: seq<Entry>, numFaces: nat) {
    && ReadLabelFile(data).Some?
    && |ReadLabelFile(data).value.labels.seg| == numFaces
    && |ReadLabelFile(data).value.labels.inst| == numFaces
    && |ReadLabelFile(data).value.labels.bottom| == numFaces
  }

  /** `data` in `save_label`. Reading it back gives the shape's name with the
      three lists as written. */
  function LabelFile(name: string, seg: seq<int>, inst: seq<seq<int>>, bottom: seq<int>): (data: seq<Entry>)
    ensures ReadLabelFile(data) == Some(Entry(name, Labels(seg, inst, bottom)))
  {
    [Entry(name, Labels(seg, inst, bottom))]
  }

  /** The label file written for an attempt that reached the save. */
  function LabelFileOf(name: string, a: Attempt): seq<Entry>
    requires a.Generated? && a.seg.Some? && a.inst.Some? && a.bottom.Some?
  {
    LabelFile(name, a.seg.value, a.inst.value, a.bottom.value)
  }

  /** `generate_shape(args)` for the shape named `name`, with `outcome(i)`
      the outcome of the `(i + 1)`-th pass. Returns the final `num_try`, the
      label file written (`None` when nothing was saved), whether an
      exception left the function, and how each pass ended. At most three
      passes run; the loop stops at the first acceptable pass and saves
      exactly that one, with a label file that reads back under its name and
      passes the label-count checks for its faces; an exception in the
      labelling ends the function at once, with nothing saved; otherwise it
      gives up with `num_try == 4` after three unacceptable passes. */
  method GenerateShape(name: string, outcome: nat -> Attempt)
    returns (numTry: nat, saved: Option<seq<Entry>>, raised: bool, verdicts: seq<Verdict>)
    ensures 1 <= numTry <= 4
    ensures |verdicts| == (if numTry == 4 then 3 else numTry)
    ensures forall i :: 0 <= i < |verdicts| ==> verdicts[i] == VerdictOf(outcome(i))
    ensures forall i :: 0 <= i < |verdicts| - 1 ==> !Acceptable(outcome(i)) && !Raises(outcome(i))
    ensures !(raised && saved.Some?)
    ensures raised <==> numTry <= 3 && Raises(outcome(numTry - 1))
    ensures saved.Some? <==> numTry <= 3 && Acceptable(outcome(numTry - 1))
    ensures numTry == 4 <==> forall i :: 0 <= i < 3 ==> !Acceptable(outcome(i)) && !Raises(outcome(i))
    ensures saved.Some? ==> && saved.value == LabelFileOf(name, outcome(numTry - 1))
                            && ReadLabelFile(saved.value).value.name == name
                            && CrosscheckAccepts(saved.value, outcome(numTry - 1).shape.value.faceCount)
  {
    numTry := 0;
    saved := None;
    raised := false;
    verdicts := [];
    while true
      invariant numTry <= 3 && |verdicts| == numTry && saved.None? && !raised
      invariant forall i :: 0 <= i < numTry ==>
                  verdicts[i] == VerdictOf(outcome(i)) && !Acceptable(outcome(i)) && !Raises(outcome(i))
      decreases 3 - numTry
    {
      numTry := numTry + 1;
      if numTry > 3 {
        break;
      }
      var a := outcome(numTry - 1);
      var v := VerdictOf(a);
      verdicts := verdicts + [v];
      if a.GenerationFails? {
        continue;
      }
      if a.shape.None? {
        continue;
      }
      if a.shape.value.kind == Other {
        continue;
      }
      if !a.listed {
        raised := true;
        break;
      }
      var faces := a.shape.value.faceCount;
      if faces == 0 {
        continue;
      }
      if a.seg.None? {
        raised := true;
        break;
      }
      if |a.seg.value| != faces {
        continue;
      }
      if a.inst.None? {
        raised := true;
        break;
      }
      if |a.inst.value| != faces {
        continue;
      }
      if a.bottom.None? {
        raised := true;
        break;
      }
      if |a.bottom.value| != faces {
        continue;
      }
      if a.saveFails {
        continue;
      }
      saved := Some(LabelFileOf(name, a));
      break;
    }
  }
}

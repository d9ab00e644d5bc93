/**
 * The camera page: raised-finger counting on hand landmarks, the key a
 * frame selects (the pinch gesture selects key 0), and the page's copy
 * routine with its same-key cooldown.
 *
 * Landmark coordinates are only compared, so they are reals. The pinch
 * test (a square-root distance below 0.05) is given per hand as a boolean.
 */
module Fingers {
  import opened Wrappers
  import opened Text
  import opened KeyCopy

  datatype Point = Point(x: real, y: real)

  /** Hand landmarks per hand; index 0 is the wrist, 3 and 4 the thumb's IP joint and tip. */
  const LandmarkCount: nat := 21

  /** The tips of the index, middle, ring and little fingers; each is compared with the landmark two below it. */
  const FingerTips: seq<nat> := [8, 12, 16, 20]

  /**
   * Whether the thumb counts. With a truthy handedness label, `Right`
   * counts a tip left of the IP joint and `Left` one right of it, and any
   * other label never counts; without a label the tip must be strictly on
   * the same side of both the wrist and the IP joint.
   */
  predicate ThumbOut(lm: seq<Point>, handLabel: Option<string>): (t: bool)
    requires |lm| >= LandmarkCount
    ensures t ==> lm[4].x != lm[3].x
    ensures Truthy(handLabel) && handLabel.value != "Right" && handLabel.value != "Left" ==> !t
  {
    if Truthy(handLabel) then
      if handLabel.value == "Right" then lm[4].x < lm[3].x
      else if handLabel.value == "Left" then lm[4].x > lm[3].x
      else false
    else
      (lm[4].x < lm[0].x && lm[4].x < lm[3].x) || (lm[4].x > lm[0].x && lm[4].x > lm[3].x)
  }

  /** A finger counts when its tip is above (smaller y than) its PIP joint. */
  predicate Raised(lm: seq<Point>, tip: nat): (r: bool)
    requires 2 <= tip < |lm|
    ensures r <==> lm[tip - 2].y - lm[tip].y > 0.0
  {
    lm[tip].y < lm[tip - 2].y
  }

  /** The product of two reals is positive exactly when both are non-zero with the same sign. */
  lemma ProductPositive(a: real, b: real)
    ensures a * b > 0.0 <==> (a > 0.0 && b > 0.0) || (a < 0.0 && b < 0.0)
  {
  }

  /** Without a label, the thumb counts exactly when the tip's offsets from the wrist and from the IP joint have the same sign. */
  lemma UnlabelledThumbSameSide(lm: seq<Point>, handLabel: Option<string>)
    requires |lm| >= LandmarkCount && !Truthy(handLabel)
    ensures ThumbOut(lm, handLabel) <==> (lm[4].x - lm[0].x) * (lm[4].x - lm[3].x) > 0.0
  {
    var tip, wrist, ip := lm[4].x, lm[0].x, lm[3].x;
    var a, b := tip - wrist, tip - ip;
    assert ThumbOut(lm, handLabel) <==> (a < 0.0 && b < 0.0) || (a > 0.0 && b > 0.0);
    ProductPositive(a, b);
    assert ThumbOut(lm, handLabel) <==> a * b > 0.0;
  }

  /** A labelled thumb not pointing exactly up counts for exactly one of the two labels. */
  lemma LabelsMirror(lm: seq<Point>)
    requires |lm| >= LandmarkCount && lm[4].x != lm[3].x
    ensures ThumbOut(lm, Some("Right")) != ThumbOut(lm, Some("Left"))
  {
  }

  /** `contarDedosMano`: one for the thumb, one for each raised finger. */
  function CountFingers(lm: seq<Point>, handLabel: Option<string>): (n: nat)
    requires |lm| >= LandmarkCount
    ensures n <= 5
    ensures n == 5 <==> ThumbOut(lm, handLabel) && forall t | t in FingerTips :: Raised(lm, t)
    ensures n == 0 <==> !ThumbOut(lm, handLabel) && forall t | t in FingerTips :: !Raised(lm, t)
  {
    (if ThumbOut(lm, handLabel) then 1 else 0)
    + (if Raised(lm, 8) then 1 else 0)
    + (if Raised(lm, 12) then 1 else 0)
    + (if Raised(lm, 16) then 1 else 0)
    + (if Raised(lm, 20) then 1 else 0)
  }

  /**
   * The label of hand `idx`: the classification's own `label`, else the
   * first nested classification's label, else null.
   */
  datatype Handedness = Handedness(ownLabel: Option<string>, nestedLabel: Option<string>)

  function ResolveLabel(h: Option<Handedness>): (handLabel: Option<string>)
    ensures handLabel == None || Truthy(handLabel)
    ensures h.Some? && Truthy(h.value.ownLabel) ==> handLabel == h.value.ownLabel
    ensures h.Some? && !Truthy(h.value.ownLabel) ==> handLabel == if Truthy(h.value.nestedLabel) then h.value.nestedLabel else None
    ensures h.None? ==> handLabel == None
  {
    if h.None? then None
    else if Truthy(h.value.ownLabel) then h.value.ownLabel
    else if Truthy(h.value.nestedLabel) then h.value.nestedLabel
    else None
  }

  /** One detected hand: its landmarks, its resolved label and whether it shows the pinch. */
  datatype Hand = Hand(landmarks: seq<Point>, handLabel: Option<string>, pinch: bool)

  predicate WellFormed(hands: seq<Hand>)
  {
    forall i | 0 <= i < |hands| :: |hands[i].landmarks| >= LandmarkCount
  }

  /** The fingers of all hands together. */
  function TotalFingers(hands: seq<Hand>): (n: nat)
    requires WellFormed(hands)
    ensures n <= 5 * |hands|
  {
    if hands == [] then 0
    else
      var last := hands[|hands| - 1];
      TotalFingers(hands[..|hands| - 1]) + CountFingers(last.landmarks, last.handLabel)
  }

  predicate AnyPinch(hands: seq<Hand>)
  {
    exists i | 0 <= i < |hands| :: hands[i].pinch
  }

  /** With at most two hands (the detector's limit) the total never exceeds ten. */
  lemma TwoHandsAtMostTen(hands: seq<Hand>)
    requires WellFormed(hands) && |hands| <= 2
    ensures TotalFingers(hands) <= 10
  {
  }

  /** What the finger-count label shows. */
  datatype Shown = NoDetection | ZeroGesture | Number(total: nat)

  /**
   * The decision of `onResults`: no hands shows `NO DETECTION` and selects
   * nothing; a pinch on any hand selects key 0; otherwise the total is
   * shown and selected only when it lies in 1..10.
   */
  method DetectKey(hands: seq<Hand>) returns (shown: Shown, key: Option<nat>)
    requires WellFormed(hands)
    ensures hands == [] ==> shown == NoDetection && key == None
    ensures hands != [] && AnyPinch(hands) ==> shown == ZeroGesture && key == Some(0)
    ensures hands != [] && !AnyPinch(hands) ==>
              && shown == Number(TotalFingers(hands))
              && key == if 0 < TotalFingers(hands) <= 10 then Some(TotalFingers(hands)) else None
    ensures key.Some? ==> key.value <= 10
  {
    if hands == [] {
      return NoDetection, None;
    }
    var total := 0;
    var zero := false;
    var i := 0;
    while i < |hands|
      invariant 0 <= i <= |hands|
      invariant total == TotalFingers(hands[..i])
      invariant zero <==> exists j | 0 <= j < i :: hands[j].pinch
    {
      assert hands[..i + 1][..i] == hands[..i];
      total := total + CountFingers(hands[i].landmarks, hands[i].handLabel);
      if hands[i].pinch {
        zero := true;
      }
      i := i + 1;
    }
    assert hands[..i] == hands;
    if zero {
      shown, key := ZeroGesture, Some(0);
    } else {
      shown := Number(total);
      key := if total > 0 && total <= 10 then Some(total) else None;
    }
  }

  /**
   * The records the page builds for its keys before loading storage: each
   * key element `num` of `titles` gets the text of its `.key-title` child
   * (`None` when it has none; a missing or empty text becomes `""`) and an
   * empty description.
   */
  function PageKeyData(titles: map<string, Option<string>>): (k: map<string, KeyEntry>)
    ensures k.Keys == titles.Keys
    ensures forall num | num in k :: k[num].description == Some("")
    ensures forall num | num in k :: k[num].title == Some(if Truthy(titles[num]) then titles[num].value else "")
  {
    map num | num in titles :: KeyEntry(Some(if Truthy(titles[num]) then titles[num].value else ""), Some(""))
  }

  /**
   * `keyData` at start-up: the stored map when storage holds one, which
   * replaces the page's records whole; otherwise the page's records, whose
   * descriptions are all empty.
   */
  function LoadedKeyData(titles: map<string, Option<string>>, stored: Option<map<string, KeyEntry>>): (k: map<string, KeyEntry>)
    ensures stored.Some? ==> k == stored.value
    ensures stored.None? ==> k.Keys == titles.Keys && forall num :: DescriptionOf(k, num) == ""
  {
    if stored.Some? then stored.value else PageKeyData(titles)
  }

  /** The title the camera page shows for key `num` after a reload: the stored one, or `"Name <num>"` when it is missing or empty. */
  function RestoredTitle(keyData: map<string, KeyEntry>, num: string): (t: string)
    requires num in keyData
    ensures Truthy(keyData[num].title) ==> t == keyData[num].title.value
    ensures !Truthy(keyData[num].title) ==> t == "Name " + num
    ensures t != ""
  {
    if Truthy(keyData[num].title) then keyData[num].title.value else "Name " + num
  }

  /** The titles written back for the stored keys that have an element on the page. */
  function RestoredTitles(keyData: map<string, KeyEntry>, pageKeys: set<string>): (t: map<string, string>)
    ensures t.Keys == keyData.Keys * pageKeys
    ensures forall num | num in t :: t[num] != "" && t[num] == RestoredTitle(keyData, num)
  {
    map num | num in keyData.Keys * pageKeys :: RestoredTitle(keyData, num)
  }

  /** Result of the camera copy routine: the text written and the new stamp. */
  datatype CamCopyOutcome = CamCopyOutcome(written: Option<string>, lastKey: Option<nat>, lastTime: int)

  /**
   * One call of the camera page's copy routine for key `key`: like the
   * remote page's, except that a key whose description trims to nothing is
   * stamped too (with nothing written), so the gate then blocks it.
   */
  function CamCopyStep(keyData: map<string, KeyEntry>, lastKey: Option<nat>, lastTime: int,
                       key: nat, now: int, onPage: bool, clipboardOk: bool, stamp: int): (o: CamCopyOutcome)
    ensures Blocked(lastKey, lastTime, key, now) || !onPage ==> o == CamCopyOutcome(None, lastKey, lastTime)
    ensures o.written.Some? <==>
              !Blocked(lastKey, lastTime, key, now) && onPage && clipboardOk
              && Trim(DescriptionOf(keyData, DecimalString(key))) != ""
    ensures o.written.Some? ==> o.written.value == DescriptionOf(keyData, DecimalString(key))
    ensures o.written.Some? ==> o == CamCopyOutcome(Some(DescriptionOf(keyData, DecimalString(key))), Some(key), stamp)
    ensures o.written.None? && Trim(DescriptionOf(keyData, DecimalString(key))) != "" ==>
              o.lastKey == lastKey && o.lastTime == lastTime
    ensures !Blocked(lastKey, lastTime, key, now) && onPage && Trim(DescriptionOf(keyData, DecimalString(key))) == ""
            ==> o == CamCopyOutcome(None, Some(key), stamp)
  {
    if Blocked(lastKey, lastTime, key, now) || !onPage then CamCopyOutcome(None, lastKey, lastTime)
    else
      var d := DescriptionOf(keyData, DecimalString(key));
      if Trim(d) != "" then
        if clipboardOk then CamCopyOutcome(Some(d), Some(key), stamp) else CamCopyOutcome(None, lastKey, lastTime)
      else CamCopyOutcome(None, Some(key), stamp)
  }

  /** Once a description has been copied, asking for the same key within two seconds does nothing. */
  lemma CamRepeatInsideWindowIgnored(keyData: map<string, KeyEntry>, lastKey: Option<nat>, lastTime: int,
                                     key: nat, now: int, stamp: int, later: int,
                                     onPage: bool, clipboardOk: bool, stamp2: int)
    requires CamCopyStep(keyData, lastKey, lastTime, key, now, true, true, stamp).written.Some?
    requires stamp <= later < stamp + CopyCooldownMs
    ensures var o := CamCopyStep(keyData, lastKey, lastTime, key, now, true, true, stamp);
            CamCopyStep(keyData, o.lastKey, o.lastTime, key, later, onPage, clipboardOk, stamp2) == o.(written := None)
  {
  }

  /**
   * Without stored data nothing is ever copied: every description is empty,
   * so a request that passes the gate only stamps its key.
   */
  lemma FreshPageCopiesNothing(titles: map<string, Option<string>>, lastKey: Option<nat>, lastTime: int,
                               key: nat, now: int, onPage: bool, clipboardOk: bool, stamp: int)
    ensures var o := CamCopyStep(LoadedKeyData(titles, None), lastKey, lastTime, key, now, onPage, clipboardOk, stamp);
            && o.written == None
            && (!Blocked(lastKey, lastTime, key, now) && onPage ==> o.lastKey == Some(key) && o.lastTime == stamp)
  {
    assert DescriptionOf(LoadedKeyData(titles, None), DecimalString(key)) == "";
    assert Trim("") == "";
  }

  /** A key with no description, once requested, is blocked for the next two seconds. */
  lemma EmptyDescriptionStillBlocks(keyData: map<string, KeyEntry>, lastKey: Option<nat>, lastTime: int,
                                    key: nat, now: int, stamp: int, later: int,
                                    onPage: bool, clipboardOk: bool, stamp2: int)
    requires !Blocked(lastKey, lastTime, key, now)
    requires Trim(DescriptionOf(keyData, DecimalString(key))) == ""
    requires stamp <= later < stamp + CopyCooldownMs
    ensures var o := CamCopyStep(keyData, lastKey, lastTime, key, now, true, clipboardOk, stamp);
            CamCopyStep(keyData, o.lastKey, o.lastTime, key, later, onPage, clipboardOk, stamp2) == o
  {
  }

  /** The camera page's key state and copy stamp. */
  class CamPage {
    var keyData: map<string, KeyEntry>
    var lastCopiedKey: Option<nat>
    var lastCopyTime: int

    /** Start-up: `keyData` as loaded, no stamp yet. */
    constructor(titles: map<string, Option<string>>, stored: Option<map<string, KeyEntry>>)
      ensures keyData == LoadedKeyData(titles, stored)
      ensures lastCopiedKey == None && lastCopyTime == 0
    {
      keyData := LoadedKeyData(titles, stored);
      lastCopiedKey := None;
      lastCopyTime := 0;
    }

    /** `copiarDescripcionKey` on the camera page. */
    method Copy(key: nat, now: int, onPage: bool, clipboardOk: bool, stamp: int) returns (written: Option<string>)
      modifies this
      ensures var o := CamCopyStep(old(keyData), old(lastCopiedKey), old(lastCopyTime),
                                   key, now, onPage, clipboardOk, stamp);
              written == o.written && lastCopiedKey == o.lastKey && lastCopyTime == o.lastTime
      ensures keyData == old(keyData)
    {
      written := None;
      if Blocked(lastCopiedKey, lastCopyTime, key, now) || !onPage {
        return;
      }
      var d := DescriptionOf(keyData, DecimalString(key));
      if Trim(d) != "" {
        if clipboardOk {
          written := Some(d);
          lastCopiedKey := Some(key);
          lastCopyTime := stamp;
        }
      } else {
        lastCopiedKey := Some(key);
        lastCopyTime := stamp;
      }
    }

    /** `onResults`: decides the shown label and key of a frame, and runs the copy routine for that key. */
    method OnResults(hands: seq<Hand>, now: int, onPage: bool, clipboardOk: bool, stamp: int)
      returns (shown: Shown, written: Option<string>)
      requires WellFormed(hands)
      modifies this
      ensures hands == [] ==> shown == NoDetection
      ensures hands != [] && AnyPinch(hands) ==> shown == ZeroGesture
      ensures hands != [] && !AnyPinch(hands) ==> shown == Number(TotalFingers(hands))
      ensures hands == [] || (!AnyPinch(hands) && !(0 < TotalFingers(hands) <= 10)) ==>
                written == None && lastCopiedKey == old(lastCopiedKey) && lastCopyTime == old(lastCopyTime)
      ensures hands != [] && (AnyPinch(hands) || 0 < TotalFingers(hands) <= 10) ==>
                var key := if AnyPinch(hands) then 0 else TotalFingers(hands);
                var o := CamCopyStep(old(keyData), old(lastCopiedKey), old(lastCopyTime),
                                     key, now, onPage, clipboardOk, stamp);
                written == o.written && lastCopiedKey == o.lastKey && lastCopyTime == o.lastTime
      ensures keyData == old(keyData)
    {
      var key;
      shown, key := DetectKey(hands);
      written := None;
      if key.Some? {
        written := Copy(key.value, now, onPage, clipboardOk, stamp);
      }
    }
  }
}

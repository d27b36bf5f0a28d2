/**
 * The positive-notification hook and the component that shows it: a single
 * notification record that `showNotification` replaces and `hideNotification`
 * hides, and the mapping from the message a caller passes to the friendly
 * text the component displays.
 */
module Notifications {
  import opened Wrappers
  import opened Text

  datatype NoticeType = Success | Info

  datatype Notification = Notification(message: string, isVisible: bool, kind: NoticeType)

  /** The state `showNotification(message, kind)` installs, whatever was there before. */
  function Shown(message: string, kind: NoticeType): (n: Notification)
    ensures n.isVisible && n.message == message && n.kind == kind
  {
    Notification(message, true, kind)
  }

  /** The state `hideNotification` leaves: the same record, no longer visible. */
  function Hidden(n: Notification): (h: Notification)
    ensures !h.isVisible && h.message == n.message && h.kind == n.kind
  {
    n.(isVisible := false)
  }

  /** Hiding twice is hiding once. */
  lemma HideIdempotent(n: Notification)
    ensures Hidden(Hidden(n)) == Hidden(n)
  {
  }

  class Notifier {
    var notification: Notification

    /** The hook's initial state: an empty, hidden success notice. */
    constructor()
      ensures notification == Notification("", false, Success)
    {
      notification := Notification("", false, Success);
    }

    /** `showNotification(message, type = 'success')`: replaces the whole record. */
    method Show(message: string, kind: NoticeType := Success)
      modifies this
      ensures notification == Shown(message, kind)
    {
      notification := Notification(message, true, kind);
    }

    /** `hideNotification`: only the visibility changes. */
    method Hide()
      modifies this
      ensures notification == Hidden(old(notification))
    {
      notification := notification.(isVisible := false);
    }
  }

  // ---------------------------------------------------------------------
  // The displayed text

  /** The template table in its key order; `default` is a key like the others. */
  const Templates: seq<(string, string)> := [
    ("Email verification sent", "✨ A magical verification link has been sent to your email! Check your inbox for your next step."),
    ("Reflection saved", "🌟 Your beautiful reflection has been safely stored. You're building something wonderful!"),
    ("Login successful", "🙏 Welcome back, peaceful soul. Your journey of reflection continues."),
    ("Registration successful", "🌸 Your account has been created with love. Begin your mindful journey!"),
    ("Signed out", "☮️ Until we meet again. May peace be with you."),
    ("default", "✨ Something wonderful just happened! Keep shining bright.")
  ]

  const DefaultText: string := Templates[5].1

  /** Key i matches when its lower-case form occurs in the lower-cased message. */
  predicate KeyMatches(message: string, i: nat)
    requires i < |Templates|
  {
    Contains(ToLower(message), ToLower(Templates[i].0))
  }

  /** `Object.keys(table).find(...)` from position i on. */
  function FirstKey(message: string, i: nat): (r: Option<nat>)
    requires i <= |Templates|
    ensures r.Some? ==> i <= r.value < |Templates| && KeyMatches(message, r.value)
    ensures r.Some? ==> forall j :: i <= j < r.value ==> !KeyMatches(message, j)
    ensures r.None? ==> forall j :: i <= j < |Templates| ==> !KeyMatches(message, j)
    decreases |Templates| - i
  {
    if i == |Templates| then None
    else if KeyMatches(message, i) then Some(i)
    else FirstKey(message, i + 1)
  }

  predicate NoEarlierKey(message: string, i: nat)
    requires i <= |Templates|
  {
    forall j :: 0 <= j < i ==> !KeyMatches(message, j)
  }

  /** `getPositiveMessage`: the text of the first matching key, or the default text. */
  function PositiveMessage(message: string): (r: string)
    ensures exists i :: 0 <= i < |Templates| && r == Templates[i].1
    ensures forall i :: 0 <= i < |Templates| && KeyMatches(message, i) && NoEarlierKey(message, i) ==> r == Templates[i].1
    ensures (forall i :: 0 <= i < |Templates| ==> !KeyMatches(message, i)) ==> r == DefaultText
  {
    match FirstKey(message, 0)
    case Some(i) => Templates[i].1
    case None => DefaultText
  }

  /** The component renders nothing exactly when the notice is hidden and its fade-out has ended. */
  predicate Renders(isVisible: bool, show: bool)
  {
    isVisible || show
  }

  /**
   * A shown notice is always drawn; a hidden one is drawn only while the
   * component's own `show` flag lasts, that is during its fade-out.
   */
  lemma RendersAfter(n: Notification, message: string, kind: NoticeType, show: bool)
    ensures Renders(Shown(message, kind).isVisible, show)
    ensures Renders(Hidden(n).isVisible, show) <==> show
  {
  }

  /**
   * Key i does not match when the letter at position j of the key, in either
   * case, occurs nowhere from position `cut` <= j of the message on: every
   * occurrence of the key would put that letter at a position of at least j.
   */
  lemma KeyAbsent(message: string, i: nat, j: nat, cut: nat)
    requires i < |Templates| && j < |Templates[i].0| && cut <= j
    requires forall k :: cut <= k < |message| ==> LowerChar(message[k]) != LowerChar(Templates[i].0[j])
    ensures !KeyMatches(message, i)
  {
    var s, p := ToLower(message), ToLower(Templates[i].0);
    forall k | 0 <= k && k + |p| <= |s| ensures !OccursAt(s, p, k) {
      assert s[k..k + |p|][j] == s[k + j];
    }
  }

  /** The message the reflection form shows when a save fails. */
  const FailedSave: string := "Failed to save reflection. Please try again."

  /** It has no m and no u in either case, and no v after "Failed to sa". */
  lemma FailedSaveLetters()
    ensures forall k :: 0 <= k < |FailedSave| ==>
      LowerChar(FailedSave[k]) != 'm' && LowerChar(FailedSave[k]) != 'u' && (k >= 13 ==> LowerChar(FailedSave[k]) != 'v')
  {
  }

  /**
   * A message with no m and no u in either case, and no v after its first
   * 13 characters, matches none of the keys and gets the default text.
   */
  lemma NoKeyLetters(message: string)
    requires forall k :: 0 <= k < |message| ==>
      LowerChar(message[k]) != 'm' && LowerChar(message[k]) != 'u' && (k >= 13 ==> LowerChar(message[k]) != 'v')
    ensures PositiveMessage(message) == DefaultText
  {
    FirstKeysAbsent(message);
    LastKeysAbsent(message);
  }

  lemma FirstKeysAbsent(message: string)
    requires forall k :: 0 <= k < |message| ==>
      LowerChar(message[k]) != 'm' && LowerChar(message[k]) != 'u' && (k >= 13 ==> LowerChar(message[k]) != 'v')
    ensures !KeyMatches(message, 0) && !KeyMatches(message, 1) && !KeyMatches(message, 2)
  {
    KeyAbsent(message, 0, 1, 0);   // the m of "Email"
    KeyAbsent(message, 1, 13, 13); // the v of "saved"
    KeyAbsent(message, 2, 7, 0);   // the u of "successful"
  }

  lemma LastKeysAbsent(message: string)
    requires forall k :: 0 <= k < |message| ==> LowerChar(message[k]) != 'u'
    ensures !KeyMatches(message, 3) && !KeyMatches(message, 4) && !KeyMatches(message, 5)
  {
    KeyAbsent(message, 3, 14, 0);  // the u of "successful"
    KeyAbsent(message, 4, 8, 0);   // the u of "out"
    KeyAbsent(message, 5, 4, 0);   // the u of "default"
  }

  /** A failed save is not mistaken for a success: it gets the default text. */
  lemma FailedSaveGetsDefault()
    ensures PositiveMessage(FailedSave) == DefaultText
  {
    FailedSaveLetters();
    NoKeyLetters(FailedSave);
  }

  /** A message that is the key "Reflection saved" in any capitalisation gets the reflection text. */
  lemma SavedReflectionText(message: string)
    requires ToLower(message) == ToLower(Templates[1].0)
    ensures PositiveMessage(message) == Templates[1].1
  {
    assert OccursAt(ToLower(message), ToLower(Templates[1].0), 0);
    AbsentByLength(ToLower(message), ToLower(Templates[0].0));
    assert NoEarlierKey(message, 1);
  }
}

/**
 * The evening reflection form: a mood, three free texts, a list of tags
 * edited through a one-line input, and the submit that builds the entry,
 * hands it to the caller's save and either resets the form or keeps it.
 * The tag list never holds a duplicate, an empty tag or a tag with
 * surrounding whitespace.
 */
module ReflectionForm {
  import opened Wrappers
  import opened Text
  import opened Lists
  import opened Calendar
  import opened Notifications

  /** The entry handed to the save callback. */
  datatype Entry = Entry(date: string, mood: int, well: string, short: string, again: string, tags: seq<string>)

  /** A tag as the input can add it: trimmed and not empty. */
  predicate GoodTag(t: string) { t != [] && IsTrimmed(t) }

  /** The filter `tag => tag !== tagToRemove`. */
  function TagIsNot(tag: string): string -> bool
  {
    (t: string) => t != tag
  }

  /** Removing a tag that occurs once cuts exactly that position out of the list. */
  lemma RemoveCutsOut(tags: seq<string>, k: nat)
    requires NoDup(tags) && k < |tags|
    ensures Filter(tags, TagIsNot(tags[k])) == tags[..k] + tags[k + 1..]
  {
    var tag, before, after := tags[k], tags[..k], tags[k + 1..];
    assert tags == before + [tag] + after;
    OnlyAt(tags, k);
    calc {
      Filter(tags, TagIsNot(tag));
      { FilterAppend(before + [tag], after, TagIsNot(tag)); }
      Filter(before + [tag], TagIsNot(tag)) + Filter(after, TagIsNot(tag));
      { FilterSnoc(before, tag, TagIsNot(tag)); }
      Filter(before, TagIsNot(tag)) + Filter(after, TagIsNot(tag));
      { RemoveAbsent(before, tag); RemoveAbsent(after, tag); }
      before + after;
    }
  }

  /** In a list without duplicates, the element at k occurs neither before nor after k. */
  lemma OnlyAt(tags: seq<string>, k: nat)
    requires NoDup(tags) && k < |tags|
    ensures tags[k] !in tags[..k] && tags[k] !in tags[k + 1..]
  {
    var before, after := tags[..k], tags[k + 1..];
    forall i | 0 <= i < |before| ensures before[i] != tags[k] {
    }
    forall i | 0 <= i < |after| ensures after[i] != tags[k] {
      assert after[i] == tags[k + 1 + i];
    }
  }

  /** Removing a tag that is not there changes nothing. */
  lemma RemoveAbsent(tags: seq<string>, tag: string)
    requires tag !in tags
    ensures Filter(tags, TagIsNot(tag)) == tags
  {
    FilterAll(tags, TagIsNot(tag));
  }

  /** The notice `handleSubmit` shows: a success notice on a save, an info notice on a failure. */
  function SubmitNotice(saved: bool): (n: Notification)
    ensures n.isVisible
    ensures saved ==> n.kind == Success && n.message == Templates[1].0
    ensures !saved ==> n.kind == Info && n.message == FailedSave
  {
    if saved then Shown(Templates[1].0, Success) else Shown(FailedSave, Info)
  }

  /**
   * The entry built from the form on `today`: the date in ISO form, the three
   * texts trimmed, the mood and the tags as they are.
   */
  function Submitted(today: Civil, mood: int, well: string, short: string, again: string, tags: seq<string>): (e: Entry)
    requires Calendar.Valid(today)
    ensures e.mood == mood && e.tags == tags
    ensures e.well == Trim(well) && e.short == Trim(short) && e.again == Trim(again)
    ensures IsTrimmed(e.well) && IsTrimmed(e.short) && IsTrimmed(e.again)
  {
    Entry(FormatIsoDate(today), mood, Trim(well), Trim(short), Trim(again), tags)
  }

  /** The entry's date reads back as the day it was submitted on. */
  lemma SubmittedDate(today: Civil, mood: int, well: string, short: string, again: string, tags: seq<string>)
    requires Calendar.Valid(today)
    ensures ParseIsoDate(Submitted(today, mood, well, short, again, tags).date) == Some(today)
  {
    ParseFormatIsoDate(today);
  }

  class Form {
    var mood: int
    var well: string
    var short: string
    var again: string
    var tags: seq<string>
    var newTag: string
    var loading: bool
    var notification: Notification

    /** The tag list's invariant. */
    predicate Valid()
      reads this
    {
      NoDup(tags) && forall t :: t in tags ==> GoodTag(t)
    }

    constructor()
      ensures Valid()
      ensures mood == 3 && well == "" && short == "" && again == "" && tags == [] && newTag == ""
      ensures !loading && notification == Notification("", false, Success)
    {
      mood, well, short, again := 3, "", "", "";
      tags, newTag := [], "";
      loading := false;
      notification := Notification("", false, Success);
    }

    /** Pressing one of the five mood buttons. */
    method ChooseMood(value: int)
      requires Valid() && 1 <= value <= 5
      modifies this
      ensures Valid()
      ensures mood == value && well == old(well) && short == old(short) && again == old(again)
      ensures tags == old(tags) && newTag == old(newTag)
      ensures loading == old(loading) && notification == old(notification)
    {
      mood := value;
    }

    /** Typing into the "What did I do well today?" text. */
    method EditWell(text: string)
      requires Valid()
      modifies this
      ensures Valid()
      ensures well == text && mood == old(mood) && short == old(short) && again == old(again)
      ensures tags == old(tags) && newTag == old(newTag)
      ensures loading == old(loading) && notification == old(notification)
    {
      well := text;
    }

    /** Typing into the "Where did I fall short?" text. */
    method EditShort(text: string)
      requires Valid()
      modifies this
      ensures Valid()
      ensures short == text && mood == old(mood) && well == old(well) && again == old(again)
      ensures tags == old(tags) && newTag == old(newTag)
      ensures loading == old(loading) && notification == old(notification)
    {
      short := text;
    }

    /** Typing into the "What can I try again tomorrow?" text. */
    method EditAgain(text: string)
      requires Valid()
      modifies this
      ensures Valid()
      ensures again == text && mood == old(mood) && well == old(well) && short == old(short)
      ensures tags == old(tags) && newTag == old(newTag)
      ensures loading == old(loading) && notification == old(notification)
    {
      again := text;
    }

    /** Typing into the tag input. */
    method EditTag(text: string)
      requires Valid()
      modifies this
      ensures Valid()
      ensures newTag == text && tags == old(tags)
      ensures mood == old(mood) && well == old(well) && short == old(short) && again == old(again)
      ensures loading == old(loading) && notification == old(notification)
    {
      newTag := text;
    }

    /**
     * `addTag`: the trimmed input is appended and the input cleared when it is
     * not empty and not already a tag; otherwise nothing changes.
     */
    method AddTag()
      requires Valid()
      modifies this
      ensures Valid()
      ensures var t := Trim(old(newTag));
        if t != [] && t !in old(tags) then tags == old(tags) + [t] && newTag == ""
        else tags == old(tags) && newTag == old(newTag)
      ensures mood == old(mood) && well == old(well) && short == old(short) && again == old(again)
      ensures loading == old(loading) && notification == old(notification)
    {
      var t := Trim(newTag);
      if t != [] && t !in tags {
        tags := tags + [t];
        newTag := "";
      }
    }

    /** `removeTag`: every other tag stays, in order. */
    method RemoveTag(tag: string)
      requires Valid()
      modifies this
      ensures Valid()
      ensures tags == Filter(old(tags), TagIsNot(tag))
      ensures forall t :: t in tags <==> t in old(tags) && t != tag
      ensures newTag == old(newTag)
      ensures mood == old(mood) && well == old(well) && short == old(short) && again == old(again)
      ensures loading == old(loading) && notification == old(notification)
    {
      FilterNoDup(tags, TagIsNot(tag));
      tags := Filter(tags, TagIsNot(tag));
    }

    /**
     * The first half of `handleSubmit` on `today`, up to the awaited save:
     * the form is marked loading and the entry handed to the save is built.
     */
    method BeginSubmit(today: Civil) returns (entry: Entry)
      requires Valid() && Calendar.Valid(today)
      modifies this
      ensures Valid() && loading
      ensures entry == Submitted(today, mood, well, short, again, tags)
      ensures mood == old(mood) && well == old(well) && short == old(short) && again == old(again)
      ensures tags == old(tags) && newTag == old(newTag) && notification == old(notification)
    {
      loading := true;
      entry := Submitted(today, mood, well, short, again, tags);
    }

    /**
     * The second half, once the save has settled (`saved` is whether it
     * succeeded): a success resets the form, a failure keeps it, each shows
     * its notice, and loading ends either way.
     */
    method FinishSubmit(saved: bool)
      requires Valid()
      modifies this
      ensures Valid() && !loading
      ensures saved ==> mood == 3 && well == "" && short == "" && again == "" && tags == []
      ensures !saved ==>
                mood == old(mood) && well == old(well) && short == old(short) && again == old(again) &&
                tags == old(tags)
      ensures notification == SubmitNotice(saved) && newTag == old(newTag)
    {
      if saved {
        notification := SubmitNotice(saved);
        mood, well, short, again := 3, "", "", "";
        tags := [];
      } else {
        notification := SubmitNotice(saved);
      }
      loading := false;
    }
  }
}

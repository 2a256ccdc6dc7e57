/**
 * The "my own tutor" dialog: up to two personality tags, saving a named
 * tutor record (its image uploaded first when it is new, an earlier recorded
 * voice kept) and deleting it again.
 */
module CustomTutor {
  import opened Wrappers
  import opened Text
  import Helpers
  import opened Lists

  const MaxTags: nat := 2
  const DefaultTags: seq<string> := ["나만의", "튜터"]

  /** The dialog's error line. */
  datatype Problem = NameRequired | SaveFailed | DeleteFailed

  function Message(p: Problem): string {
    match p
    case NameRequired => "튜터 이름을 입력해주세요"
    case SaveFailed => "저장 중 오류가 발생했습니다"
    case DeleteFailed => "삭제 중 오류가 발생했습니다"
  }

  /** `prev.filter(t => t !== tag)`. */
  function Without(s: seq<string>, tag: string): (r: seq<string>)
    ensures |r| <= |s|
    ensures forall t :: t in r <==> t in s && t != tag
  {
    if s == [] then []
    else Without(s[..|s| - 1], tag) + (if s[|s| - 1] == tag then [] else [s[|s| - 1]])
  }

  lemma {:induction false} WithoutAbsent(s: seq<string>, tag: string)
    requires tag !in s
    ensures Without(s, tag) == s
  {
    if s != [] {
      WithoutAbsent(s[..|s| - 1], tag);
      assert s[..|s| - 1] + [s[|s| - 1]] == s;
    }
  }

  lemma {:induction false} WithoutShrinks(s: seq<string>, tag: string)
    requires tag in s
    ensures |Without(s, tag)| < |s|
  {
    if s[|s| - 1] != tag {
      assert tag in s[..|s| - 1] by {
        var i :| 0 <= i < |s| && s[i] == tag;
        assert s[..|s| - 1][i] == tag;
      }
      WithoutShrinks(s[..|s| - 1], tag);
    }
  }

  /** `handleTagToggle`: drop a selected tag; add an unselected one only while fewer than two are selected. */
  function TagToggle(prev: seq<string>, tag: string): (r: seq<string>)
    ensures tag in prev ==> r == Without(prev, tag) && tag !in r && |r| < |prev|
    ensures tag !in prev && |prev| < MaxTags ==> r == prev + [tag]
    ensures tag !in prev && |prev| >= MaxTags ==> r == prev
  {
    if tag in prev then
      WithoutShrinks(prev, tag);
      Without(prev, tag)
    else if |prev| < MaxTags then prev + [tag]
    else prev
  }

  /** The selection never exceeds two tags and never holds a tag twice. */
  lemma TagToggleKeepsCap(prev: seq<string>, tag: string)
    requires |prev| <= MaxTags
    ensures |TagToggle(prev, tag)| <= MaxTags
  {
  }

  lemma {:induction false} WithoutKeepsNoDup(s: seq<string>, tag: string)
    requires NoDup(s)
    ensures NoDup(Without(s, tag))
  {
    if s != [] {
      var init, last := s[..|s| - 1], s[|s| - 1];
      WithoutKeepsNoDup(init, tag);
      var w := Without(init, tag);
      assert last !in init by {
        forall i | 0 <= i < |init| ensures init[i] != last {
          assert init[i] == s[i];
        }
      }
      assert last !in w;
      if last != tag {
        var r := w + [last];
        assert Without(s, tag) == r;
        forall i, j | 0 <= i < j < |r| ensures r[i] != r[j] {
          if j == |r| - 1 {
            assert r[i] == w[i] && w[i] in w && r[j] == last;
          } else {
            assert r[i] == w[i] && r[j] == w[j];
            assert w[i] != w[j];
          }
        }
      }
    }
  }

  lemma TagToggleKeepsDistinct(prev: seq<string>, tag: string)
    requires NoDup(prev)
    ensures NoDup(TagToggle(prev, tag))
  {
    if tag in prev {
      WithoutKeepsNoDup(prev, tag);
    }
  }

  /** Pressing an unselected tag twice, with room to add it, restores the selection. */
  lemma TagToggleTwice(prev: seq<string>, tag: string)
    requires tag !in prev && |prev| < MaxTags
    ensures TagToggle(TagToggle(prev, tag), tag) == prev
  {
    WithoutAbsent(prev, tag);
  }

  /** `ACCENTS.find(a => a.id === accent)?.label || '미국'`. */
  function Nationality(accent: string): (r: string)
    ensures accent == "uk" ==> r == "영국"
    ensures accent == "au" ==> r == "호주"
    ensures accent == "in" ==> r == "인도"
    ensures accent !in {"uk", "au", "in"} ==> r == "미국"
  {
    if accent == "uk" then "영국"
    else if accent == "au" then "호주"
    else if accent == "in" then "인도"
    else "미국"
  }

  /** The stored `CUSTOM_TUTOR` record. */
  datatype Tutor = Tutor(id: string, name: string, image: Option<string>, conversationStyle: string,
                         accent: string, gender: string, genderLabel: string, nationality: string,
                         tags: seq<string>, isCustom: bool, voiceId: Option<string>, hasCustomVoice: bool,
                         updatedAt: string)

  /** A JavaScript string value that is neither missing nor empty. */
  predicate Truthy(s: Option<string>) {
    s.Some? && s.value != ""
  }

  /** `existingData?.voiceId || null`. */
  function KeptVoice(existing: Option<Tutor>): (v: Option<string>)
    ensures Truthy(v) <==> v.Some?
    ensures v.Some? ==> existing.Some? && v == existing.value.voiceId
  {
    if existing.Some? && Truthy(existing.value.voiceId) then existing.value.voiceId else None
  }

  /** `tutorData` in `handleSave`. */
  function TutorRecord(name: string, image: Option<string>, style: string, accent: string, gender: string,
                       tags: seq<string>, existing: Option<Tutor>, now: string): (t: Tutor)
    ensures t.id == "custom-tutor" && t.isCustom && t.name == Trim(name) && t.image == image
    ensures t.tags == (if tags == [] then DefaultTags else tags) && t.tags != []
    ensures t.voiceId == KeptVoice(existing) && (t.hasCustomVoice <==> t.voiceId.Some?)
  {
    var voice := KeptVoice(existing);
    Tutor("custom-tutor", Trim(name), image, style, accent, gender,
          if gender == "female" then "여성" else "남성", Nationality(accent),
          if |tags| > 0 then tags else DefaultTags, true, voice, voice.Some?, now)
  }

  /** The saved record carries the gender's Korean label, the accent's country and the chosen style. */
  lemma TutorRecordLabels(name: string, image: Option<string>, style: string, accent: string, gender: string,
                          tags: seq<string>, existing: Option<Tutor>, now: string)
    ensures var t := TutorRecord(name, image, style, accent, gender, tags, existing, now);
      t.genderLabel == (if gender == "female" then "여성" else "남성")
      && t.nationality == Nationality(accent)
      && t.conversationStyle == style && t.accent == accent && t.gender == gender && t.updatedAt == now
  {
  }

  /** How the image upload ended: the stored URL, a refused upload, or an exception. */
  datatype Upload = Uploaded(url: string) | UploadRefused | UploadThrew

  /** How saving to the server ended: re-read with its presigned image, not re-read, or an exception. */
  datatype ServerSave = Refetched(image: Option<string>) | NotRefetched | SaveThrew

  /** `tutorImage.startsWith('data:')`: a freshly picked image not yet uploaded. */
  predicate IsDataUrl(s: Option<string>) {
    s.Some? && |s.value| >= 5 && s.value[..5] == "data:"
  }

  /** The dialog's fields that go into a saved record. */
  datatype Form = Form(name: string, image: Option<string>, imageUrl: Option<string>, style: string,
                       accent: string, gender: string, tags: seq<string>)

  /**
   * What `handleSave` stores for a non-blank name: nothing when uploading a
   * new image threw; otherwise the record with the uploaded (or earlier)
   * image URL, else the image itself, replaced by the server's presigned
   * image when the server could re-read the record.
   */
  function SaveOutcome(f: Form, existing: Option<Tutor>, upload: Upload, server: ServerSave, now: string): (r: Option<Tutor>)
    ensures r.None? <==> IsDataUrl(f.image) && upload.UploadThrew?
    ensures r.Some? ==> r.value == TutorRecord(f.name, f.image, f.style, f.accent, f.gender, f.tags, existing, now).(image := r.value.image)
    ensures r.Some? && server.Refetched? ==> r.value.image == server.image
    ensures r.Some? && !server.Refetched? && IsDataUrl(f.image) && upload.Uploaded? && upload.url != "" ==>
      r.value.image == Some(upload.url)
    ensures r.Some? && !server.Refetched? && !(IsDataUrl(f.image) && upload.Uploaded?) ==>
      r.value.image == (if Truthy(f.imageUrl) then f.imageUrl else f.image)
    ensures r.Some? && !server.Refetched? && IsDataUrl(f.image) && upload == Uploaded("") ==> r.value.image == f.image
  {
    if IsDataUrl(f.image) && upload.UploadThrew? then None
    else
      var url := if IsDataUrl(f.image) && upload.Uploaded? then Some(upload.url) else f.imageUrl;
      var data := TutorRecord(f.name, if Truthy(url) then url else f.image, f.style, f.accent, f.gender, f.tags, existing, now);
      Some(if server.Refetched? then data.(image := server.image) else data)
  }

  class Modal {
    var tutorImage: Option<string>
    var tutorImageUrl: Option<string>
    var tutorName: string
    var selectedStyle: string
    var selectedAccent: string
    var selectedGender: string
    var selectedTags: seq<string>
    var isLoading: bool
    var error: Option<Problem>
    /** `localStorage[CUSTOM_TUTOR]`: missing, unreadable, or a record or `null`. */
    var stored: Option<Helpers.Entry<Option<Tutor>>>

    /** At most two tags are selected, and no save or delete is in flight between events. */
    predicate Valid()
      reads this
    {
      |selectedTags| <= MaxTags && !isLoading
    }

    /** `getFromStorage(CUSTOM_TUTOR, null)`. */
    function Existing(): Option<Tutor>
      reads this`stored
    {
      if stored.Some? && stored.value.Parsed? then stored.value.value else None
    }

    function Fields(): Form
      reads this`tutorName, this`tutorImage, this`tutorImageUrl, this`selectedStyle,
            this`selectedAccent, this`selectedGender, this`selectedTags
    {
      Form(tutorName, tutorImage, tutorImageUrl, selectedStyle, selectedAccent, selectedGender, selectedTags)
    }

    constructor (stored: Option<Helpers.Entry<Option<Tutor>>>)
      ensures Valid() && this.stored == stored
      ensures tutorImage.None? && tutorImageUrl.None? && tutorName == "" && selectedTags == []
      ensures selectedStyle == "teacher" && selectedAccent == "us" && selectedGender == "female"
      ensures !isLoading && error.None?
    {
      tutorImage := None;
      tutorImageUrl := None;
      tutorName := "";
      selectedStyle := "teacher";
      selectedAccent := "us";
      selectedGender := "female";
      selectedTags := [];
      isLoading := false;
      error := None;
      this.stored := stored;
    }

    method HandleTagToggle(tag: string)
      requires Valid()
      modifies this`selectedTags
      ensures Valid() && selectedTags == TagToggle(old(selectedTags), tag)
    {
      TagToggleKeepsCap(selectedTags, tag);
      selectedTags := TagToggle(selectedTags, tag);
    }

    /**
     * `handleSave`: a blank name only sets the error. Otherwise a new image
     * is uploaded first (an exception there aborts with the save error), the
     * record is built and stored with the server's presigned image when the
     * server could re-read it, and handed to `onSave`.
     */
    method HandleSave(upload: Upload, server: ServerSave, now: string) returns (saved: Option<Tutor>)
      requires Valid()
      modifies this`error, this`stored
      ensures Valid()
      ensures saved == if AllSpace(old(tutorName)) then None else SaveOutcome(old(Fields()), old(Existing()), upload, server, now)
      ensures error == if AllSpace(old(tutorName)) then Some(NameRequired) else if saved.None? then Some(SaveFailed) else None
      ensures stored == if saved.Some? then Some(Helpers.Parsed(saved)) else old(stored)
    {
      if AllSpace(tutorName) {
        error := Some(NameRequired);
        return None;
      }
      saved := SaveOutcome(Fields(), Existing(), upload, server, now);
      if saved.None? {
        error := Some(SaveFailed);
      } else {
        error := None;
        stored := Some(Helpers.Parsed(saved));
      }
    }

    /**
     * `handleDelete`: nothing to delete without an image or a name; after a
     * successful server delete the stored record becomes `null` and every
     * field is reset; a failed delete only sets the error.
     */
    method HandleDelete(serverDeleted: bool) returns (deleted: bool)
      requires Valid()
      modifies this
      ensures Valid()
      ensures !Truthy(old(tutorImage)) && old(tutorName) == "" ==> !deleted && unchanged(this)
      ensures (Truthy(old(tutorImage)) || old(tutorName) != "") && !serverDeleted ==>
        !deleted && error == Some(DeleteFailed) && !isLoading && stored == old(stored)
        && tutorImage == old(tutorImage) && tutorImageUrl == old(tutorImageUrl) && tutorName == old(tutorName)
        && selectedStyle == old(selectedStyle) && selectedAccent == old(selectedAccent)
        && selectedGender == old(selectedGender) && selectedTags == old(selectedTags)
      ensures deleted <==> (Truthy(old(tutorImage)) || old(tutorName) != "") && serverDeleted
      ensures deleted ==>
        stored == Some(Helpers.Parsed(None)) && error.None? && !isLoading
        && tutorImage.None? && tutorImageUrl.None? && tutorName == "" && selectedTags == []
        && selectedStyle == "teacher" && selectedAccent == "us" && selectedGender == "female"
    {
      if !Truthy(tutorImage) && tutorName == "" {
        return false;
      }
      isLoading := true;
      error := None;
      if !serverDeleted {
        error := Some(DeleteFailed);
        isLoading := false;
        return false;
      }
      stored := Some(Helpers.Parsed(None));
      tutorImage := None;
      tutorImageUrl := None;
      tutorName := "";
      selectedStyle := "teacher";
      selectedAccent := "us";
      selectedGender := "female";
      selectedTags := [];
      isLoading := false;
      deleted := true;
    }
  }

  /** A saved record's tags come from the selection or the default pair, so there are never more than two. */
  lemma SavedTagsAtMostTwo(name: string, image: Option<string>, style: string, accent: string, gender: string,
                           tags: seq<string>, existing: Option<Tutor>, now: string)
    requires |tags| <= MaxTags
    ensures 1 <= |TutorRecord(name, image, style, accent, gender, tags, existing, now).tags| <= MaxTags
  {
  }
}

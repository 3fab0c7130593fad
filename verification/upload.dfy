/** The video uploader: drag highlighting, accepting a file from a drop or
    from the file input, the preview handle, and clearing. */
module Upload {
  import opened Wrappers

  /** A browser `File` as far as the uploader looks at it; its type may be
      anything. */
  datatype ChosenFile = ChosenFile(name: string, mimeType: string, size: nat)

  /** An object URL for a preview, numbered in order of creation. */
  type Handle = nat

  /** The uploader's highlight flag and preview, the selected file (held by
      the page and passed down), and how many preview handles have been
      created. No handle is ever revoked, so all of them are outstanding. */
  datatype State = State(dragActive: bool, video: Option<ChosenFile>, preview: Option<Handle>, created: nat)

  const Empty: State := State(false, None, None, 0)

  const VideoPrefix: string := "video/"

  /** JavaScript's `s.startsWith(prefix)`. */
  predicate StartsWith(s: string, prefix: string) {
    |prefix| <= |s| && s[..|prefix|] == prefix
  }

  /** The selected file and its preview go together, and the preview is a
      handle that was actually created. */
  ghost predicate Consistent(s: State) {
    && (s.video.Some? <==> s.preview.Some?)
    && (s.preview.Some? ==> s.preview.value < s.created)
  }

  /** `handleDrag`: entering or hovering highlights the zone, leaving clears
      the highlight, any other event type leaves it as it was. */
  function OnDrag(s: State, eventType: string): (r: State)
    ensures eventType == "dragenter" || eventType == "dragover" ==> r == s.(dragActive := true)
    ensures eventType == "dragleave" ==> r == s.(dragActive := false)
    ensures eventType != "dragenter" && eventType != "dragover" && eventType != "dragleave" ==> r == s
  {
    if eventType == "dragenter" || eventType == "dragover" then s.(dragActive := true)
    else if eventType == "dragleave" then s.(dragActive := false)
    else s
  }

  /** `onVideoSelect(file)` followed by `createPreview(file)`: the file is
      selected and gets a preview handle different from every earlier one. */
  function Select(s: State, f: ChosenFile): (r: State)
    ensures r.video == Some(f) && r.dragActive == s.dragActive
    ensures r.preview.Some? && r.preview.value >= s.created
    ensures r.created == s.created + 1
    ensures Consistent(r)
  {
    State(s.dragActive, Some(f), Some(s.created), s.created + 1)
  }

  /** Whether a drop carries a first file whose declared type is a video
      type. */
  predicate AcceptsDrop(files: seq<ChosenFile>) {
    |files| > 0 && StartsWith(files[0].mimeType, VideoPrefix)
  }

  /** `handleDrop`: the highlight always goes; the first file is taken only
      when its type starts with `video/`. */
  function OnDrop(s: State, files: seq<ChosenFile>): (r: State)
    ensures !r.dragActive
    ensures AcceptsDrop(files) ==>
      r.video == Some(files[0]) && r.preview.Some? && r.preview.value >= s.created && r.created == s.created + 1
    ensures !AcceptsDrop(files) ==> r == s.(dragActive := false)
    ensures Consistent(s) ==> Consistent(r)
  {
    var s' := s.(dragActive := false);
    if AcceptsDrop(files) then Select(s', files[0]) else s'
  }

  /** Only the first dropped file matters. */
  lemma DropIgnoresLaterFiles(s: State, files: seq<ChosenFile>)
    requires |files| > 0
    ensures OnDrop(s, files) == OnDrop(s, files[..1])
  {
  }

  /** `handleFileChange`: the first chosen file is taken whatever its type;
      the highlight is untouched. */
  function OnFileChange(s: State, files: seq<ChosenFile>): (r: State)
    ensures |files| > 0 ==>
      && r.video == Some(files[0]) && r.dragActive == s.dragActive
      && r.preview.Some? && r.preview.value >= s.created && r.created == s.created + 1
    ensures |files| == 0 ==> r == s
    ensures Consistent(s) ==> Consistent(r)
  {
    if |files| > 0 then Select(s, files[0]) else s
  }

  /** A file that is not a video is refused by a drop but taken by the file
      input, which only hints at a type through its `accept` attribute. */
  lemma FileInputHasNoTypeCheck(s: State, f: ChosenFile)
    requires !StartsWith(f.mimeType, VideoPrefix)
    ensures OnDrop(s, [f]).video == s.video
    ensures OnFileChange(s, [f]).video == Some(f)
  {
  }

  /** `clearVideo`: no file and no preview; the handle is not revoked. */
  function Clear(s: State): (r: State)
    ensures r.video.None? && r.preview.None?
    ensures r.dragActive == s.dragActive && r.created == s.created
    ensures Consistent(s) ==> Consistent(r)
  {
    s.(video := None, preview := None)
  }

  /** The drop zone (with the hidden file input) is shown when no file is
      selected. */
  predicate ShowsDropZone(s: State) {
    s.video.None?
  }

  /** The player is shown when a file is selected and a preview exists. */
  predicate ShowsPlayer(s: State) {
    s.video.Some? && s.preview.Some?
  }

  /** In a consistent state exactly one of the drop zone and the player is
      shown. */
  lemma ViewIsExclusive(s: State)
    requires Consistent(s)
    ensures ShowsPlayer(s) <==> !ShowsDropZone(s)
  {
  }

  /** Selecting a file and clearing it leaves no file and no preview, but the
      handle created for it stays outstanding. */
  lemma SelectThenClear(s: State, f: ChosenFile)
    ensures Clear(Select(s, f)) == s.(video := None, preview := None, created := s.created + 1)
  {
  }
}

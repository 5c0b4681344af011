/** `recorder.onstop` and what follows it: the buffer becomes one clip, its
    URL replaces the published one, the in-progress flag drops, and the
    gallery in storage gains an entry. `URL.createObjectURL`,
    `FileReader.readAsDataURL`, `Date.now()` and `toISOString()` are inputs. */
module Finalizer {
  import opened Wrappers
  import opened Account
  import opened Gallery
  import opened Recorder

  /** The assembled clip and its container type. */
  datatype Clip = Clip(bytes: seq<byte>, mime: string)

  datatype StopResult = StopResult(session: Session, clip: Clip, stored: seq<Entry>)

  /** `recorder.onstop`, then `setIsGenerating(false)` once the awaited
      promise resolves. */
  function OnStop(st: Session, mime: string, url: string, toDataUrl: (seq<byte>, string) -> string,
                  stored: Option<seq<Entry>>, now: int, date: string, prompt: string, aspect: string,
                  user: Option<User>): (r: StopResult)
    ensures r.clip == Clip(Assemble(st.chunks), mime)
    ensures r.session.videoUrl == Some(url) && !r.session.generating && r.session.chunks == st.chunks
    ensures 1 <= |r.stored| <= Capacity
    ensures r.stored[0].signed <==> SignedIn(user)
    ensures r.stored[0].name == EntryName(prompt) && r.stored[0].dataUrl == toDataUrl(r.clip.bytes, mime)
  {
    var clip := Clip(Assemble(st.chunks), mime);
    var entry := NewEntry(now, prompt, toDataUrl(clip.bytes, mime), date, aspect, user);
    StopResult(st.(generating := false, videoUrl := Some(url)), clip, Save(stored, entry))
  }

  /** A whole recording run: start with the recorder available, receive the
      data events, stop. Exactly one clip is published, holding every byte
      that arrived during this run in arrival order and nothing from before
      it; the flag is back to idle; and the gallery's newest entry is this
      clip, followed by the 49 newest earlier entries at most. */
  lemma RunPublishesOneClip(st: Session, aspect: string, vp9: bool, events: seq<Option<Blob>>,
                            url: string, toDataUrl: (seq<byte>, string) -> string,
                            stored: Option<seq<Entry>>, now: int, date: string, prompt: string,
                            user: Option<User>)
    requires GuardedStartRun(st, true, aspect, vp9, false, true).1.Recording?
    ensures var (s0, out) := GuardedStartRun(st, true, aspect, vp9, false, true);
            var s1 := s0.(chunks := ReceiveAll(s0.chunks, events));
            var r := OnStop(s1, out.mime, url, toDataUrl, stored, now, date, prompt, aspect, user);
      && r.clip.bytes == Assemble(Arrived(events))
      && r.clip.mime == ChooseMime(vp9)
      && r.session.videoUrl == Some(url) && !r.session.generating
      && r.stored[0] == NewEntry(now, prompt, toDataUrl(r.clip.bytes, r.clip.mime), date, aspect, user)
      && r.stored[1..] == Take(Load(stored), Capacity - 1)
  {
    ReceiveAllFromEmpty(events);
    CollectedBytes(events);
  }
}

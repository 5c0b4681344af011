/** The bounded clip history kept in local storage under
    `nkaivault_gallery_v1`: newest first, at most 50 entries. The storage
    itself (a JSON string) is abstracted to the list it decodes to. */
module Gallery {
  import opened Wrappers
  import opened Account
  import opened Numbers

  datatype Entry = Entry(id: int, name: string, dataUrl: string, date: string, aspect: string, signed: bool)

  const Capacity: nat := 50
  const NameLength: nat := 40
  const FallbackName: string := "clip"

  /** `prompt.slice(0, 40) || 'clip'`. */
  function EntryName(prompt: string): (name: string)
    ensures 1 <= |name| <= NameLength
    ensures |prompt| == 0 ==> name == FallbackName
    ensures |prompt| > 0 ==> |name| == Min(|prompt|, NameLength) && name <= prompt
  {
    var head := prompt[..Min(|prompt|, NameLength)];
    if |head| == 0 then FallbackName else head
  }

  /** The entry `recorder.onstop` builds for a finished clip. */
  function NewEntry(now: int, prompt: string, dataUrl: string, date: string, aspect: string, user: Option<User>): (e: Entry)
    ensures e.signed <==> SignedIn(user)
    ensures e.name == EntryName(prompt)
    ensures e.id == now && e.dataUrl == dataUrl && e.date == date && e.aspect == aspect
  {
    Entry(now, EntryName(prompt), dataUrl, date, aspect, SignedIn(user))
  }

  /** `s.slice(0, n)`. */
  function Take<T>(s: seq<T>, n: nat): seq<T>
  {
    s[..Min(|s|, n)]
  }

  /** `g.unshift(e); g.slice(0, 50)`. */
  function AddEntry(log: seq<Entry>, e: Entry): (r: seq<Entry>)
    ensures |r| == Min(|log| + 1, Capacity)
    ensures r[0] == e
    ensures forall i :: 1 <= i < |r| ==> r[i] == log[i - 1]
  {
    Take([e] + log, Capacity)
  }

  /** `JSON.parse(localStorage.getItem(key) || "[]")`: a missing log reads as
      empty. */
  function Load(stored: Option<seq<Entry>>): seq<Entry>
  {
    stored.GetOr([])
  }

  /** What one finished clip writes back to storage. */
  function Save(stored: Option<seq<Entry>>, e: Entry): (r: seq<Entry>)
    ensures 1 <= |r| <= Capacity && r[0] == e
    ensures stored.None? ==> r == [e]
    ensures stored.Some? ==> r[1..] == Take(stored.value, Capacity - 1)
  {
    var r := AddEntry(Load(stored), e);
    assert r[1..] == Take(Load(stored), Capacity - 1);
    r
  }

  /** The log after saving `es` one after another, oldest first. */
  function AddAll(log: seq<Entry>, es: seq<Entry>): seq<Entry>
    decreases |es|
  {
    if |es| == 0 then log
    else AddEntry(AddAll(log, es[..|es| - 1]), es[|es| - 1])
  }

  function Reverse<T>(s: seq<T>): (r: seq<T>)
    ensures |r| == |s|
    ensures forall i :: 0 <= i < |s| ==> r[i] == s[|s| - 1 - i]
  {
    if |s| == 0 then [] else [s[|s| - 1]] + Reverse(s[..|s| - 1])
  }

  lemma TakeTake(e: Entry, s: seq<Entry>)
    ensures Take([e] + Take(s, Capacity), Capacity) == Take([e] + s, Capacity)
  {
  }

  /** After any non-empty series of saves, the log holds the newest 50 of
      all entries ever saved (including those it held before), newest first:
      the oldest are the ones evicted. */
  lemma {:induction false} AddAllNewestFirst(log: seq<Entry>, es: seq<Entry>)
    requires |es| >= 1
    ensures AddAll(log, es) == Take(Reverse(es) + log, Capacity)
    decreases |es|
  {
    var n := |es| - 1;
    var e := es[n];
    if n == 0 {
      assert Reverse(es) == [e];
    } else {
      AddAllNewestFirst(log, es[..n]);
      assert Reverse(es) == [e] + Reverse(es[..n]);
      TakeTake(e, Reverse(es[..n]) + log);
      assert [e] + (Reverse(es[..n]) + log) == Reverse(es) + log;
    }
  }

  /** The log never exceeds 50 entries once anything has been saved. */
  lemma AddAllBounded(log: seq<Entry>, es: seq<Entry>)
    requires |es| >= 1
    ensures |AddAll(log, es)| == Min(|es| + |log|, Capacity)
  {
    AddAllNewestFirst(log, es);
  }
}

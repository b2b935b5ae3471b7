/** Voice selection (app/main.py:48-49, 57, 61): the payload may override the
    voices of speakers A and B; speaker C always speaks with a fixed voice. */
module Voices {
  import opened Wrappers
  import opened Script

  const DefaultVoiceA: string := "alloy"
  const DefaultVoiceB: string := "verse"
  /** The voice of speaker C, which the payload cannot change. */
  const VoiceC: string := "aria"

  /** The two overridable voices after the payload defaults are applied. */
  datatype Cast = Cast(voiceA: string, voiceB: string)

  /** `payload.get("voice_a", "alloy")` and `payload.get("voice_b", "verse")`:
      a supplied voice wins, a missing one takes its default. */
  function ResolveCast(voiceA: Option<string>, voiceB: Option<string>): (c: Cast)
    ensures voiceA.Some? ==> c.voiceA == voiceA.value
    ensures voiceA.None? ==> c.voiceA == DefaultVoiceA
    ensures voiceB.Some? ==> c.voiceB == voiceB.value
    ensures voiceB.None? ==> c.voiceB == DefaultVoiceB
  {
    Cast(voiceA.GetOr(DefaultVoiceA), voiceB.GetOr(DefaultVoiceB))
  }

  /** The dictionary built for every request, keyed by tag name. */
  function VoiceMap(cast: Cast): (m: map<string, string>)
    ensures m.Keys == {"A", "B", "C"}
    ensures m["A"] == cast.voiceA && m["B"] == cast.voiceB && m["C"] == VoiceC
  {
    map["A" := cast.voiceA, "B" := cast.voiceB, "C" := VoiceC]
  }

  /** `dict.get(key, fallback)`. */
  function Lookup(m: map<string, string>, key: string, fallback: string): (v: string)
    ensures key in m ==> v == m[key]
    ensures key !in m ==> v == fallback
  {
    if key in m then m[key] else fallback
  }

  /** The voice a turn is spoken in: the dictionary entry for its tag, with
      voice A as the fallback. */
  function VoiceFor(cast: Cast, speaker: Tag): (v: string)
    ensures speaker == A ==> v == cast.voiceA
    ensures speaker == B ==> v == cast.voiceB
    ensures speaker == C ==> v == VoiceC
  {
    Lookup(VoiceMap(cast), TagName(speaker), cast.voiceA)
  }

  /** Every tag the parser can produce has an entry, so the fallback of the
      lookup is never taken for a parsed turn. */
  lemma EveryTagMapped(cast: Cast, speaker: Tag)
    ensures TagName(speaker) in VoiceMap(cast)
  {
  }

  /** A key without an entry falls back to voice A. */
  lemma UnknownKeyFallsBack(cast: Cast, key: string)
    requires key != "A" && key != "B" && key != "C"
    ensures Lookup(VoiceMap(cast), key, cast.voiceA) == cast.voiceA
  {
  }

  /** Speaker C ignores both overrides. */
  lemma VoiceCFixed(a1: Option<string>, b1: Option<string>, a2: Option<string>, b2: Option<string>)
    ensures VoiceFor(ResolveCast(a1, b1), C) == VoiceFor(ResolveCast(a2, b2), C) == VoiceC
  {
  }

  /** Overriding voice A changes only what speaker A says things in, and
      likewise for B. */
  lemma OverrideIsolated(cast: Cast, v: string, speaker: Tag)
    ensures speaker != A ==> VoiceFor(Cast(v, cast.voiceB), speaker) == VoiceFor(cast, speaker)
    ensures speaker != B ==> VoiceFor(Cast(cast.voiceA, v), speaker) == VoiceFor(cast, speaker)
  {
  }

  /** With no overrides, A speaks as `alloy`, B as `verse` and C as `aria`. */
  lemma DefaultCast(speaker: Tag)
    ensures VoiceFor(ResolveCast(None, None), speaker) ==
      match speaker
      case A => "alloy"
      case B => "verse"
      case C => "aria"
  {
  }
}

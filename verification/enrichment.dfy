/** The enrichment and short-video filter at the end of `searchOnYt`
    (ytSearch.ts): every flattened search item is looked up in the two maps,
    dropped when its duration is 60 seconds or less, and otherwise decorated
    with views, a duration label and the channel avatar. */
module Enrichment {
  import opened Wrappers
  import opened YouTube
  import opened Lookup
  import opened Duration
  import opened Seqs

  /** Items at most this long are filtered out as shorts. */
  const ShortLimit: nat := 60

  /** `videoDetails?.contentDetails?.duration ?? "PT0S"`. */
  function IsoDuration(details: Option<VideoDetails>): string {
    DurationOf(details).GetOr(DefaultDuration)
  }

  /** The item's looked-up duration string, as the filter sees it. */
  function DurationFor(v: SearchItem, details: map<string, VideoDetails>): string {
    IsoDuration(Get(details, v.videoId))
  }

  /** The filter `durationSeconds <= 60 → null`, negated. */
  predicate IsLongForm(v: SearchItem, details: map<string, VideoDetails>) {
    Seconds(DurationFor(v, details)) > ShortLimit
  }

  /** The object literal built for a surviving item. */
  function Decorate(v: SearchItem, details: map<string, VideoDetails>, channels: map<string, ChannelDetails>): EnrichedVideo {
    var d := Get(details, v.videoId);
    EnrichedVideo(
      v,
      ViewCountOf(d).GetOr("0"),
      DurationLabel(IsoDuration(d)),
      AvatarOf(Get(channels, v.snippet.channelId)).GetOr(""))
  }

  /** `videos.map(...).filter(v => v !== null)`. */
  function Enrich(videos: seq<SearchItem>, details: map<string, VideoDetails>, channels: map<string, ChannelDetails>)
    : seq<EnrichedVideo>
  {
    FilterMap(videos, v => IsLongForm(v, details), v => Decorate(v, details, channels))
  }

  /** The positions of the long-form items, in increasing order. */
  function Survivors(videos: seq<SearchItem>, details: map<string, VideoDetails>): seq<nat> {
    Positions(videos, v => IsLongForm(v, details))
  }

  /** The output is the subsequence of the input at exactly the long-form
      positions, in order, each item decorated; repeated items (the same video
      found by two queries) are all kept. */
  lemma EnrichIsFilter(
    videos: seq<SearchItem>, details: map<string, VideoDetails>, channels: map<string, ChannelDetails>)
    ensures forall i :: 0 <= i < |videos| ==> (i in Survivors(videos, details) <==> IsLongForm(videos[i], details))
    ensures forall k, l :: 0 <= k < l < |Survivors(videos, details)| ==>
      Survivors(videos, details)[k] < Survivors(videos, details)[l]
    ensures |Enrich(videos, details, channels)| == |Survivors(videos, details)|
    ensures forall k :: 0 <= k < |Survivors(videos, details)| ==>
      Enrich(videos, details, channels)[k] == Decorate(videos[Survivors(videos, details)[k]], details, channels)
  {
    FilterMapAt(videos, v => IsLongForm(v, details), v => Decorate(v, details, channels));
  }

  /** A video with no details entry, or whose details carry no duration, gets
      "PT0S" and is always dropped. */
  lemma MissingDurationDropped(v: SearchItem, details: map<string, VideoDetails>)
    requires DurationOf(Get(details, v.videoId)).None?
    ensures !IsLongForm(v, details)
  {
    SecondsOfEncode(Clock(0, 0, 0));
  }

  /** What a survivor carries: the whole search item, the view count or "0",
      a label showing the same duration the filter measured (so more than a
      minute), and the channel's default thumbnail or "". */
  lemma DecoratedFields(v: SearchItem, details: map<string, VideoDetails>, channels: map<string, ChannelDetails>)
    requires IsLongForm(v, details)
    ensures Decorate(v, details, channels).item == v
    ensures Decorate(v, details, channels).duration == DurationLabel(DurationFor(v, details))
    ensures ParseLabel(Decorate(v, details, channels).duration) == Some(Components(DurationFor(v, details)))
    ensures TotalSeconds(ParseLabel(Decorate(v, details, channels).duration).value) == Seconds(DurationFor(v, details))
    ensures TotalSeconds(ParseLabel(Decorate(v, details, channels).duration).value) > ShortLimit
    ensures ViewCountOf(Get(details, v.videoId)).None? ==> Decorate(v, details, channels).views == "0"
    ensures ViewCountOf(Get(details, v.videoId)).Some? ==>
      Decorate(v, details, channels).views == ViewCountOf(Get(details, v.videoId)).value
    ensures AvatarOf(Get(channels, v.snippet.channelId)).None? ==> Decorate(v, details, channels).channelAvatarUrl == ""
    ensures AvatarOf(Get(channels, v.snippet.channelId)).Some? ==>
      Decorate(v, details, channels).channelAvatarUrl == AvatarOf(Get(channels, v.snippet.channelId)).value
  {
    LabelRoundTrip(Components(DurationFor(v, details)));
    LabelAgreesWithSeconds(DurationFor(v, details));
  }

  /** Every survivor's label shows more than a minute. */
  lemma EnrichedAreLongForm(
    videos: seq<SearchItem>, details: map<string, VideoDetails>, channels: map<string, ChannelDetails>)
    ensures forall e :: e in Enrich(videos, details, channels) ==>
      ParseLabel(e.duration).Some? && TotalSeconds(ParseLabel(e.duration).value) > ShortLimit
  {
    EnrichIsFilter(videos, details, channels);
    var r, idx := Enrich(videos, details, channels), Survivors(videos, details);
    forall e | e in r
      ensures ParseLabel(e.duration).Some? && TotalSeconds(ParseLabel(e.duration).value) > ShortLimit
    {
      var k :| 0 <= k < |r| && r[k] == e;
      DecoratedFields(videos[idx[k]], details, channels);
    }
  }
}

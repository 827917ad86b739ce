/** The home page's coordination of its two showcase videos (the podcast
    and the advertisement): which one is marked as playing, pausing and
    rewinding when the stacked cards change or a video scrolls out of view,
    and the modal for the upcoming-project clips. */
module Page {
  import opened Common

  /** The part of an HTML video element the page touches. */
  class VideoElement {
    var paused: bool
    var currentTime: real

    constructor(paused: bool, currentTime: real)
      ensures this.paused == paused && this.currentTime == currentTime
    {
      this.paused := paused;
      this.currentTime := currentTime;
    }

    /** `pause()`: stops playback where it is. */
    method Pause()
      modifies this
      ensures paused && currentTime == old(currentTime)
    {
      paused := true;
    }
  }

  /** The two observed videos. */
  datatype Which = Podcast | Ads

  /** One intersection-observer report about an observed video. */
  datatype Entry = Entry(target: Which, isIntersecting: bool)

  /** Some report in the batch says the video has left the view. */
  predicate LeftView(entries: seq<Entry>, w: Which) {
    exists i :: 0 <= i < |entries| && entries[i] == Entry(w, false)
  }

  /** The clips offered as upcoming projects, in display order. */
  function UpcomingVideos(): (r: seq<string>)
    ensures |r| == 3
  {
    ["/um1.mp4", "/um2.mp4", "/um3.mp4"]
  }

  class Home {
    var isPodcastPlaying: bool
    var isAdsPlaying: bool
    var selectedVideo: Option<string>
    const podcast: VideoElement
    const ads: VideoElement

    /** The two video elements are distinct. */
    ghost predicate Valid()
    {
      podcast != ads
    }

    function Video(w: Which): VideoElement {
      match w
      case Podcast => podcast
      case Ads => ads
    }

    function Playing(w: Which): bool
      reads this`isPodcastPlaying, this`isAdsPlaying
    {
      match w
      case Podcast => isPodcastPlaying
      case Ads => isAdsPlaying
    }

    constructor(podcast: VideoElement, ads: VideoElement)
      requires podcast != ads
      ensures Valid() && this.podcast == podcast && this.ads == ads
      ensures !isPodcastPlaying && !isAdsPlaying && selectedVideo == None
    {
      this.podcast := podcast;
      this.ads := ads;
      isPodcastPlaying := false;
      isAdsPlaying := false;
      selectedVideo := None;
    }

    /** The podcast started: mark it playing and pause the advertisement
        where it is. */
    method HandlePodcastPlay()
      requires Valid()
      modifies this`isPodcastPlaying, ads
      ensures isPodcastPlaying && isAdsPlaying == old(isAdsPlaying)
      ensures ads.paused && ads.currentTime == old(ads.currentTime)
      ensures podcast.paused == old(podcast.paused) && podcast.currentTime == old(podcast.currentTime)
    {
      isPodcastPlaying := true;
      ads.Pause();
    }

    /** The advertisement started: mark it playing and pause the podcast
        where it is. */
    method HandleAdsPlay()
      requires Valid()
      modifies this`isAdsPlaying, podcast
      ensures isAdsPlaying && isPodcastPlaying == old(isPodcastPlaying)
      ensures podcast.paused && podcast.currentTime == old(podcast.currentTime)
      ensures ads.paused == old(ads.paused) && ads.currentTime == old(ads.currentTime)
    {
      isAdsPlaying := true;
      podcast.Pause();
    }

    /** The podcast element reported a pause. */
    method PodcastPaused()
      modifies this`isPodcastPlaying
      ensures !isPodcastPlaying
    {
      isPodcastPlaying := false;
    }

    /** The advertisement element reported a pause. */
    method AdsPaused()
      modifies this`isAdsPlaying
      ensures !isAdsPlaying
    {
      isAdsPlaying := false;
    }

    /** Stops and rewinds one video and clears its flag. */
    method Stop(w: Which)
      requires Valid()
      modifies this`isPodcastPlaying, this`isAdsPlaying, Video(w)
      ensures Video(w).paused && Video(w).currentTime == 0.0 && !Playing(w)
      ensures w == Podcast ==> isAdsPlaying == old(isAdsPlaying)
      ensures w == Ads ==> isPodcastPlaying == old(isPodcastPlaying)
    {
      Video(w).Pause();
      Video(w).currentTime := 0.0;
      match w
      case Podcast => isPodcastPlaying := false;
      case Ads => isAdsPlaying := false;
    }

    /** The stacked card `index` became the active one: every video not on
        that card is stopped, rewound and marked not playing. Card 0 holds
        the podcast and card 1 the advertisement. */
    method HandleActiveItemChange(index: int)
      requires Valid()
      modifies this`isPodcastPlaying, this`isAdsPlaying, podcast, ads
      ensures index != 0 ==> podcast.paused && podcast.currentTime == 0.0 && !isPodcastPlaying
      ensures index == 0 ==>
        podcast.paused == old(podcast.paused) && podcast.currentTime == old(podcast.currentTime)
        && isPodcastPlaying == old(isPodcastPlaying)
      ensures index != 1 ==> ads.paused && ads.currentTime == 0.0 && !isAdsPlaying
      ensures index == 1 ==>
        ads.paused == old(ads.paused) && ads.currentTime == old(ads.currentTime)
        && isAdsPlaying == old(isAdsPlaying)
      ensures !(isPodcastPlaying && isAdsPlaying)
      ensures isPodcastPlaying ==> index == 0
      ensures isAdsPlaying ==> index == 1
    {
      if index != 0 {
        Stop(Podcast);
      }
      if index != 1 {
        Stop(Ads);
      }
    }

    /** The intersection observer's callback: every video reported as no
        longer in view (below a fifth visible) is stopped, rewound and
        marked not playing; reports of videos in view change nothing. */
    method OnIntersection(entries: seq<Entry>)
      requires Valid()
      modifies this`isPodcastPlaying, this`isAdsPlaying, podcast, ads
      ensures forall w :: LeftView(entries, w) ==>
        Video(w).paused && Video(w).currentTime == 0.0 && !Playing(w)
      ensures forall w :: !LeftView(entries, w) ==>
        Video(w).paused == old(Video(w).paused) && Video(w).currentTime == old(Video(w).currentTime)
        && Playing(w) == old(Playing(w))
    {
      var i := 0;
      while i < |entries|
        invariant 0 <= i <= |entries|
        invariant forall w :: LeftView(entries[..i], w) ==>
          Video(w).paused && Video(w).currentTime == 0.0 && !Playing(w)
        invariant forall w :: !LeftView(entries[..i], w) ==>
          Video(w).paused == old(Video(w).paused) && Video(w).currentTime == old(Video(w).currentTime)
          && Playing(w) == old(Playing(w))
      {
        var entry := entries[i];
        LeftViewStep(entries, i);
        if !entry.isIntersecting {
          Stop(entry.target);
        }
        i := i + 1;
      }
      assert entries[..|entries|] == entries;
    }

    /** Clicking upcoming-project tile `idx` opens its clip in the modal. */
    method SelectUpcoming(idx: nat)
      requires idx < |UpcomingVideos()|
      modifies this`selectedVideo
      ensures selectedVideo == Some(UpcomingVideos()[idx])
    {
      selectedVideo := Some(UpcomingVideos()[idx]);
    }

    /** The modal's close handler. */
    method CloseVideo()
      modifies this`selectedVideo
      ensures selectedVideo == None
    {
      selectedVideo := None;
    }
  }

  /** Extending a batch by one report: the video of a leaving report has
      now left the view, and no other video's status changes. */
  lemma LeftViewStep(entries: seq<Entry>, i: nat)
    requires i < |entries|
    ensures forall w :: LeftView(entries[..i + 1], w) <==>
      LeftView(entries[..i], w) || entries[i] == Entry(w, false)
  {
    var pre, ext := entries[..i], entries[..i + 1];
    assert forall j :: 0 <= j < i ==> ext[j] == pre[j];
    assert ext[i] == entries[i];
  }
}

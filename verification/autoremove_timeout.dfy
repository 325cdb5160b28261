/**
 * The self-destruct timer attribute of a message: how it is stored, and the
 * two questions asked of a message carrying it (is the media secret, and
 * how long does it play).
 */
module AutoremoveTimeout {
  import opened Wrappers

  // ---------------------------------------------------------------------
  // The attribute and its coding
  // ---------------------------------------------------------------------

  /** The timeout in seconds and, once started, the time the countdown began. */
  datatype Attribute = Attribute(timeout: Int32, countdownBeginTime: Option<Int32>)

  /** A stored value under a key. */
  datatype Value = PInt32(i: Int32) | PNil

  type Record = map<string, Value>

  /** Reads "t" with 0 as the default and "c" as an optional Int32; a missing key gives the default. */
  function Decode(r: Record): (a: Attribute)
    ensures "t" !in r ==> a.timeout == 0
    ensures "c" !in r ==> a.countdownBeginTime == None
    ensures a.countdownBeginTime.Some? <==> "c" in r && r["c"].PInt32?
    ensures "t" in r && r["t"].PInt32? ==> a.timeout == r["t"].i
    ensures !("t" in r && r["t"].PInt32?) ==> a.timeout == 0
    ensures a.countdownBeginTime.Some? ==> a.countdownBeginTime.value == r["c"].i
  {
    var timeout := if "t" in r && r["t"].PInt32? then r["t"].i else 0;
    var countdown := if "c" in r && r["c"].PInt32? then Some(r["c"].i) else None;
    Attribute(timeout, countdown)
  }

  /** Stores the timeout under "t" and the countdown start, or nil, under "c"; decoding gives the attribute back. */
  function Encode(a: Attribute): (r: Record)
    ensures r.Keys == {"t", "c"}
    ensures Decode(r) == a
  {
    map["t" := PInt32(a.timeout), "c" := if a.countdownBeginTime.Some? then PInt32(a.countdownBeginTime.value) else PNil]
  }

  // ---------------------------------------------------------------------
  // Messages
  // ---------------------------------------------------------------------

  /** A message attribute: the timer or any other kind. */
  datatype MessageAttribute = Autoremove(attribute: Attribute) | OtherAttribute

  /** A message's media: an image, a file with its kind flags and duration, or anything else. */
  datatype Media =
    | Image
    | File(isVideo: bool, isAnimated: bool, isVoice: bool, isMusic: bool, duration: Option<Int32>)
    | OtherMedia

  /** The longest timeout, in seconds, that still makes media secret. */
  const SecretTimeoutLimit: Int32 := 1 * 60

  /** Media that self-destructs on view when the timer is short: images, videos, GIFs, voice and music. */
  predicate IsSecretKind(m: Media) {
    m.Image? || (m.File? && (m.isVideo || m.isAnimated || m.isVoice || m.isMusic))
  }

  /** `i` is the first timer attribute. */
  predicate FirstAutoremoveAt(attributes: seq<MessageAttribute>, i: int) {
    && 0 <= i < |attributes|
    && attributes[i].Autoremove?
    && forall k :: 0 <= k < i ==> !attributes[k].Autoremove?
  }

  /** `j` is the first image or file among the media. */
  predicate FirstImageOrFileAt(media: seq<Media>, j: int) {
    && 0 <= j < |media|
    && (media[j].Image? || media[j].File?)
    && forall k :: 0 <= k < j ==> media[k].OtherMedia?
  }

  /**
   * `containsSecretMedia`: the first timer attribute decides; none, or a
   * timeout over a minute, means no; otherwise the answer is whether any
   * media is of a secret kind.
   */
  method ContainsSecretMedia(attributes: seq<MessageAttribute>, media: seq<Media>) returns (r: bool)
    ensures r <==>
      && (exists i :: FirstAutoremoveAt(attributes, i) && attributes[i].attribute.timeout <= SecretTimeoutLimit)
      && (exists j :: 0 <= j < |media| && IsSecretKind(media[j]))
  {
    var found := false;
    var i := 0;
    while i < |attributes|
      invariant 0 <= i <= |attributes|
      invariant forall k :: 0 <= k < i ==> !attributes[k].Autoremove?
    {
      if attributes[i].Autoremove? {
        if attributes[i].attribute.timeout > SecretTimeoutLimit {
          assert FirstAutoremoveAt(attributes, i);
          return false;
        }
        found := true;
        break;
      }
      i := i + 1;
    }
    if !found {
      return false;
    }
    assert FirstAutoremoveAt(attributes, i);
    for j := 0 to |media|
      invariant forall k :: 0 <= k < j ==> !IsSecretKind(media[k])
    {
      match media[j] {
        case Image =>
          return true;
        case File(isVideo, isAnimated, isVoice, isMusic, _) =>
          if isVideo || isAnimated || isVoice || isMusic {
            return true;
          }
        case OtherMedia =>
      }
    }
    return false;
  }

  /**
   * `secretMediaDuration`: nothing without a timer attribute, whatever its
   * timeout; otherwise the first image or file decides: an image has no
   * duration and a file has its own.
   */
  method SecretMediaDuration(attributes: seq<MessageAttribute>, media: seq<Media>) returns (r: Option<Int32>)
    ensures (forall i :: 0 <= i < |attributes| ==> !attributes[i].Autoremove?) ==> r == None
    ensures (exists i :: 0 <= i < |attributes| && attributes[i].Autoremove?) ==>
      && ((forall j :: 0 <= j < |media| ==> media[j].OtherMedia?) ==> r == None)
      && (forall j :: FirstImageOrFileAt(media, j) ==> r == (if media[j].Image? then None else media[j].duration))
  {
    var found := false;
    var i := 0;
    while i < |attributes|
      invariant 0 <= i <= |attributes|
      invariant forall k :: 0 <= k < i ==> !attributes[k].Autoremove?
    {
      if attributes[i].Autoremove? {
        found := true;
        break;
      }
      i := i + 1;
    }
    if !found {
      return None;
    }
    assert attributes[i].Autoremove?;
    for j := 0 to |media|
      invariant forall k :: 0 <= k < j ==> media[k].OtherMedia?
    {
      match media[j] {
        case Image =>
          return None;
        case File(_, _, _, _, duration) =>
          return duration;
        case OtherMedia =>
      }
    }
    return None;
  }
}

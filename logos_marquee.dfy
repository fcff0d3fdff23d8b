/**
 * `src/components/DynamicLogosMarquee.tsx`: the logos shown in the marquee,
 * taken from the gallery's listing or made up as numbered placeholders.
 */
module LogosMarquee {
  import opened Text
  import opened Storage
  import Gallery

  /** The number of placeholders drawn when the folder lists nothing. */
  const DefaultFallbackCount: int := 10

  /** The number of skeleton slots drawn while loading. */
  const SkeletonSlots: nat := 6

  datatype Logo = Logo(src: string, alt: string)

  /** `Logo ${i + 1}` */
  function PlaceholderAlt(i: nat): string {
    "Logo " + NatToString(i + 1)
  }

  /**
   * The `logos` expression: one logo per listed file, or, when nothing is
   * listed, `fallbackCount` placeholders (none for a negative count, as
   * `Array.from({ length })` gives).
   */
  function Logos(media: seq<MediaFile>, fallbackCount: int := DefaultFallbackCount): (r: seq<Logo>)
    ensures |r| == if |media| > 0 then |media| else if fallbackCount > 0 then fallbackCount else 0
    ensures |media| > 0 ==> forall i :: 0 <= i < |r| ==>
      r[i].src == media[i].publicUrl && r[i].alt == media[i].name
    ensures |media| == 0 ==> forall i :: 0 <= i < |r| ==>
      r[i].src == "" && r[i].alt == PlaceholderAlt(i)
  {
    if |media| > 0 then
      seq(|media|, i requires 0 <= i < |media| => Logo(media[i].publicUrl, media[i].name))
    else
      var n := if fallbackCount > 0 then fallbackCount else 0;
      seq(n, i requires 0 <= i < n => Logo("", PlaceholderAlt(i)))
  }

  /** Placeholders are told apart by their alt text. */
  lemma PlaceholdersDistinct(fallbackCount: int, i: nat, j: nat)
    requires i < j < fallbackCount
    ensures Logos([], fallbackCount)[i] != Logos([], fallbackCount)[j]
  {
    var a, b := PlaceholderAlt(i), PlaceholderAlt(j);
    if a == b {
      assert NatToString(i + 1) == a[|"Logo "|..] == b[|"Logo "|..] == NatToString(j + 1);
      NatToStringInjective(i + 1, j + 1);
    }
  }

  /**
   * The first render: the gallery hook is started on the `folder` prop,
   * which defaults to the hook's own default folder.
   */
  method Mount(folder: string := Gallery.DefaultFolder) returns (g: Gallery.MediaGallery)
    ensures fresh(g) && g.Valid() && g.folder == folder
    ensures g.media == [] && g.loading && g.error.None?
    ensures Render(g.loading, g.media) == Skeleton(SkeletonSlots)
  {
    g := new Gallery.MediaGallery(folder);
  }

  /** With the default count, an empty folder shows ten placeholders, `Logo 1` first. */
  lemma DefaultPlaceholders()
    ensures var v := Render(false, []);
      v.Marquee? && |v.logos| == 10 && v.logos[0] == Logo("", "Logo 1")
  {
    assert NatToString(1) == "1";
  }

  datatype MarqueeView = Skeleton(slots: nat) | Marquee(logos: seq<Logo>)

  /** While the gallery loads, six skeleton slots whatever the list; then the marquee. */
  function Render(loading: bool, media: seq<MediaFile>, fallbackCount: int := DefaultFallbackCount): (v: MarqueeView)
    ensures loading ==> v == Skeleton(SkeletonSlots)
    ensures !loading ==> v.Marquee? && (|v.logos| > 0 <==> |media| > 0 || fallbackCount > 0)
    ensures !loading ==> v == Marquee(Logos(media, fallbackCount))
  {
    if loading then Skeleton(SkeletonSlots) else Marquee(Logos(media, fallbackCount))
  }
}

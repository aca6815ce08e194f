/**
 * `PetDetail` (src/components/petDetail.jsx): a pure projection of one
 * listing record onto what the page shows, the photo panel and the text
 * panel. Every property of the record may be missing (`null`) or empty,
 * and both are falsy.
 */
module PetDetail {
  import opened Wrappers
  import opened JsText

  datatype PetData = PetData(
    kind: Option<string>,
    description: Option<string>,
    mark: Option<string>,
    district: Option<string>,
    date: Option<string>,
    phone: Option<string>,
    email: Option<string>,
    photos1: Option<string>,
    photos2: Option<string>,
    photos3: Option<string>)

  /** JavaScript truthiness of a string property: present and non-empty. */
  predicate Truthy(o: Option<string>) {
    o.Some? && o.value != []
  }

  /** `xs.filter(Boolean)`: the truthy values, in their order. */
  function KeepTruthy(xs: seq<Option<string>>): (r: seq<string>)
    ensures |r| <= |xs|
    ensures forall k :: 0 <= k < |r| ==> r[k] != []
    ensures forall s :: s in r <==> s != [] && Some(s) in xs
  {
    if xs == [] then []
    else (if Truthy(xs[0]) then [xs[0].value] else []) + KeepTruthy(xs[1..])
  }

  /** Filtering a concatenation filters each part, so the order of the input is kept. */
  lemma {:induction false} KeepTruthyAppend(a: seq<Option<string>>, b: seq<Option<string>>)
    ensures KeepTruthy(a + b) == KeepTruthy(a) + KeepTruthy(b)
  {
    if a == [] {
      assert a + b == b;
    } else {
      assert (a + b)[0] == a[0];
      assert (a + b)[1..] == a[1..] + b;
      KeepTruthyAppend(a[1..], b);
    }
  }

  lemma KeepTruthySingle(x: Option<string>)
    ensures KeepTruthy([x]) == if Truthy(x) then [x.value] else []
  {
    assert [x][1..] == [];
  }

  /** The listing's existing photos: `[photos1, photos2, photos3].filter(Boolean)`. */
  function Photos(d: PetData): (r: seq<string>)
    ensures |r| <= 3
    ensures r == (if Truthy(d.photos1) then [d.photos1.value] else [])
               + (if Truthy(d.photos2) then [d.photos2.value] else [])
               + (if Truthy(d.photos3) then [d.photos3.value] else [])
  {
    var xs := [d.photos1, d.photos2, d.photos3];
    assert xs == [d.photos1] + ([d.photos2] + [d.photos3]);
    KeepTruthyAppend([d.photos1], [d.photos2] + [d.photos3]);
    KeepTruthyAppend([d.photos2], [d.photos3]);
    KeepTruthySingle(d.photos1);
    KeepTruthySingle(d.photos2);
    KeepTruthySingle(d.photos3);
    KeepTruthy(xs)
  }

  const MediaBase: string := "https://pets.сделай.site"
  const PlaceholderSource: string := "https://via.placeholder.com/300x200?text=No+Image"
  const PlaceholderAlt: string := "Нет изображения"

  datatype Image = Image(src: string, alt: string)

  const PlaceholderImage: Image := Image(PlaceholderSource, PlaceholderAlt)

  /**
   * The alt text of the photo at `index` of the filtered list: the mark when
   * truthy, else `Фото ` followed by digits, without a leading zero, that
   * read back as the photo's 1-based position.
   */
  function PhotoAlt(mark: Option<string>, index: nat): (alt: string)
    ensures Truthy(mark) ==> alt == mark.value
    ensures !Truthy(mark) ==>
      |alt| > 5 && alt[..5] == "Фото " && alt[5] != '0'
      && (forall k :: 5 <= k < |alt| ==> IsAsciiDigit(alt[k]))
      && DecimalValue(alt[5..]) == index + 1
  {
    if Truthy(mark) then mark.value
    else
      var digits := Decimal(index + 1);
      var alt := "Фото " + digits;
      assert alt[5..] == digits;
      DecimalRoundTrip(index + 1);
      alt
  }

  /** `photos.map(...)`: one image per existing photo, its path resolved against the media base. */
  function Gallery(d: PetData): (r: seq<Image>)
    ensures |r| == |Photos(d)|
    ensures forall i :: 0 <= i < |r| ==>
      r[i].src == MediaBase + Photos(d)[i] && r[i].alt == PhotoAlt(d.mark, i)
  {
    var ps := Photos(d);
    seq(|ps|, i requires 0 <= i < |ps| => Image(MediaBase + ps[i], PhotoAlt(d.mark, i)))
  }

  datatype PhotoPanel = GalleryPanel(images: seq<Image>) | PlaceholderPanel(image: Image)

  /** The left column: the gallery when some photo exists, the placeholder otherwise. */
  function RenderPhotoPanel(d: PetData): (p: PhotoPanel)
    ensures p.PlaceholderPanel? <==> !Truthy(d.photos1) && !Truthy(d.photos2) && !Truthy(d.photos3)
    ensures p.PlaceholderPanel? ==> p.image == PlaceholderImage
    ensures p.GalleryPanel? ==> 1 <= |p.images| <= 3 && p.images == Gallery(d)
  {
    var ps := Photos(d);
    if |ps| > 0 then GalleryPanel(Gallery(d)) else PlaceholderPanel(PlaceholderImage)
  }

  /** `value || fallback` for a string property. */
  function OrElse(o: Option<string>, fallback: string): (r: string)
    ensures Truthy(o) ==> r == o.value
    ensures !Truthy(o) ==> r == fallback
  {
    if Truthy(o) then o.value else fallback
  }

  const KindFallback: string := "Неизвестное животное"
  const DescriptionFallback: string := "Нет описания"
  const MarkFallback: string := "Нет информации"
  const DistrictFallback: string := "Не указан"
  const DateFallback: string := "Неизвестно"
  const PhoneFallback: string := "Нет телефона"
  const EmailFallback: string := "Нет email"

  /** The text shown in the right column, one entry per field. */
  datatype InfoPanel = InfoPanel(
    kind: string, description: string, mark: string, district: string,
    date: string, phone: string, email: string)

  function RenderInfo(d: PetData): (r: InfoPanel)
    ensures r.kind == OrElse(d.kind, KindFallback)
    ensures r.description == OrElse(d.description, DescriptionFallback)
    ensures r.mark == OrElse(d.mark, MarkFallback)
    ensures r.district == OrElse(d.district, DistrictFallback)
    ensures r.date == OrElse(d.date, DateFallback)
    ensures r.phone == OrElse(d.phone, PhoneFallback)
    ensures r.email == OrElse(d.email, EmailFallback)
  {
    InfoPanel(
      OrElse(d.kind, KindFallback),
      OrElse(d.description, DescriptionFallback),
      OrElse(d.mark, MarkFallback),
      OrElse(d.district, DistrictFallback),
      OrElse(d.date, DateFallback),
      OrElse(d.phone, PhoneFallback),
      OrElse(d.email, EmailFallback))
  }

  datatype Detail = Detail(photos: PhotoPanel, info: InfoPanel)

  /**
   * `PetDetail({ data })`: the placeholder exactly when no photo exists,
   * otherwise one image per existing photo, beside the text panel.
   */
  function Render(d: PetData): (r: Detail)
    ensures r.photos.PlaceholderPanel? <==> Photos(d) == []
    ensures r.photos.PlaceholderPanel? ==> r.photos.image == PlaceholderImage
    ensures r.photos.GalleryPanel? ==> |r.photos.images| == |Photos(d)|
    ensures r.photos.GalleryPanel? ==> forall i :: 0 <= i < |r.photos.images| ==>
      r.photos.images[i].src == MediaBase + Photos(d)[i] && r.photos.images[i].alt == PhotoAlt(d.mark, i)
    ensures r.info == RenderInfo(d)
  {
    Detail(RenderPhotoPanel(d), RenderInfo(d))
  }

  // ---------------------------------------------------------------- consequences

  /** Photos in slots 1 and 3 only are shown as exactly two images, slot 1 first, both under the media base. */
  lemma {:induction false} SlotsOneAndThreeShown(d: PetData)
    requires Truthy(d.photos1) && !Truthy(d.photos2) && Truthy(d.photos3)
    ensures Photos(d) == [d.photos1.value, d.photos3.value]
    ensures RenderPhotoPanel(d).GalleryPanel?
    ensures |Gallery(d)| == 2
    ensures Gallery(d)[0].src == MediaBase + d.photos1.value
    ensures Gallery(d)[1].src == MediaBase + d.photos3.value
  {
  }

  /**
   * Without a mark, the alt text numbers a photo by its position among the
   * existing photos, not by its slot: a lone photo in slot 3 is "Фото 1".
   */
  lemma {:induction false} AltNumbersFollowFilteredPosition(d: PetData)
    requires !Truthy(d.mark) && !Truthy(d.photos1) && !Truthy(d.photos2) && Truthy(d.photos3)
    ensures Gallery(d) == [Image(MediaBase + d.photos3.value, "Фото 1")]
  {
    assert Photos(d) == [d.photos3.value];
    assert Decimal(1) == "1";
    assert "Фото " + Decimal(1) == "Фото 1";
    assert Gallery(d)[0] == Image(MediaBase + d.photos3.value, "Фото 1");
  }

  /**
   * The images are exactly the existing photos: a path is shown, under the
   * media base, exactly when some slot holds it as a non-empty string.
   */
  lemma {:induction false} GalleryShowsExactlyExistingPhotos(d: PetData, p: string)
    ensures (exists i :: 0 <= i < |Gallery(d)| && Gallery(d)[i].src == MediaBase + p)
        <==> p != [] && (d.photos1 == Some(p) || d.photos2 == Some(p) || d.photos3 == Some(p))
  {
    var ps := Photos(d);
    if exists i :: 0 <= i < |Gallery(d)| && Gallery(d)[i].src == MediaBase + p {
      var i :| 0 <= i < |Gallery(d)| && Gallery(d)[i].src == MediaBase + p;
      assert (MediaBase + ps[i])[|MediaBase|..] == ps[i];
      assert (MediaBase + p)[|MediaBase|..] == p;
      assert ps[i] == p;
      assert p in ps;
    }
    if p != [] && (d.photos1 == Some(p) || d.photos2 == Some(p) || d.photos3 == Some(p)) {
      assert p in ps;
      var i :| 0 <= i < |ps| && ps[i] == p;
      assert Gallery(d)[i].src == MediaBase + p;
    }
  }

  /**
   * Without a mark, the alt text of image i carries the number i + 1, so no
   * two images share an alt text, whichever slots the photos came from.
   */
  lemma {:induction false} GalleryAltsNumberPositions(d: PetData)
    requires !Truthy(d.mark)
    ensures forall i :: 0 <= i < |Gallery(d)| ==> DecimalValue(Gallery(d)[i].alt[5..]) == i + 1
    ensures forall i, j :: 0 <= i < j < |Gallery(d)| ==> Gallery(d)[i].alt != Gallery(d)[j].alt
  {
    var g := Gallery(d);
    forall i | 0 <= i < |g|
      ensures DecimalValue(g[i].alt[5..]) == i + 1
    {
      assert g[i].alt == PhotoAlt(d.mark, i);
    }
    forall i, j | 0 <= i < j < |g|
      ensures g[i].alt != g[j].alt
    {
      assert DecimalValue(g[i].alt[5..]) == i + 1;
      assert DecimalValue(g[j].alt[5..]) == j + 1;
    }
  }

  /** With a truthy mark, every photo's alt text is the mark. */
  lemma {:induction false} MarkNamesEveryPhoto(d: PetData)
    requires Truthy(d.mark)
    ensures forall i :: 0 <= i < |Gallery(d)| ==> Gallery(d)[i].alt == d.mark.value
  {
  }

  /** The text panel never shows an empty entry: a falsy value is replaced by its field's label. */
  lemma {:induction false} InfoNeverBlank(d: PetData)
    ensures var r := RenderInfo(d);
      r.kind != [] && r.description != [] && r.mark != [] && r.district != []
      && r.date != [] && r.phone != [] && r.email != []
  {
  }

  /** Each entry of the text panel depends on its own field only; in particular a missing description touches nothing else. */
  lemma {:induction false} InfoFieldsIndependent(d: PetData, v: Option<string>)
    ensures RenderInfo(d.(description := v)) == RenderInfo(d).(description := OrElse(v, DescriptionFallback))
    ensures RenderInfo(d.(kind := v)) == RenderInfo(d).(kind := OrElse(v, KindFallback))
    ensures RenderInfo(d.(mark := v)) == RenderInfo(d).(mark := OrElse(v, MarkFallback))
    ensures RenderInfo(d.(district := v)) == RenderInfo(d).(district := OrElse(v, DistrictFallback))
    ensures RenderInfo(d.(date := v)) == RenderInfo(d).(date := OrElse(v, DateFallback))
    ensures RenderInfo(d.(phone := v)) == RenderInfo(d).(phone := OrElse(v, PhoneFallback))
    ensures RenderInfo(d.(email := v)) == RenderInfo(d).(email := OrElse(v, EmailFallback))
  {
  }
}

/**
 * The admin car form (src/pages/AdminCarForm.tsx): editing the feature list and
 * the image list, filling the form from a loaded car, and the multipart body the
 * submit handler builds. Number-to-text conversion of prices (`String(x)`) and
 * preview URLs (`URL.createObjectURL`) are taken as functions given by the caller.
 */
module AdminCarForm {
  import opened Wrappers
  import Seqs
  import Text
  import Forms

  // ------------------------------------------------------------------ features

  function Without(f: string): string -> bool {
    (g: string) => g != f
  }

  /** `toggleFeature`: drop every copy of `f` when it is listed, else append it. */
  function ToggleFeature(fs: seq<string>, f: string): (r: seq<string>)
    ensures f in r <==> f !in fs
    ensures forall g :: g != f ==> (g in r <==> g in fs)
    ensures f !in fs ==> r == fs + [f]
    ensures f in fs ==> Seqs.Subsequence(r, fs)
    ensures f in fs ==> forall g :: g != f ==> multiset(r)[g] == multiset(fs)[g]
  {
    Seqs.FilterMembers(fs, Without(f));
    Seqs.FilterMultiset(fs, Without(f));
    if f in fs then
      Seqs.FilterIsSubsequence(fs, Without(f));
      Seqs.Filter(fs, Without(f))
    else fs + [f]
  }

  /** Toggling a feature twice from a list without it gives that list back. */
  lemma ToggleTwiceRestores(fs: seq<string>, f: string)
    requires f !in fs
    ensures ToggleFeature(ToggleFeature(fs, f), f) == fs
  {
    Seqs.FilterAppend(fs, [f], Without(f));
    Seqs.FilterKeepsAll(fs, Without(f));
    Seqs.FilterKeepsNone([f], Without(f));
  }

  // -------------------------------------------------------------------- images

  /** An image of the form: a kept URL, or a new file with its preview URL. */
  datatype ImageItem = ImageItem(url: string, file: Option<Forms.UploadedFile>)

  /** `removeImage`: drop the element at `index`; any other index drops nothing. */
  function RemoveImage(images: seq<ImageItem>, index: int): (r: seq<ImageItem>)
    ensures 0 <= index < |images| ==> |r| == |images| - 1
    ensures 0 <= index < |images| ==> forall i :: 0 <= i < index ==> r[i] == images[i]
    ensures 0 <= index < |images| ==> forall i :: index <= i < |r| ==> r[i] == images[i + 1]
    ensures !(0 <= index < |images|) ==> r == images
  {
    if 0 <= index < |images| then images[..index] + images[index + 1..] else images
  }

  /** Removing an image removes exactly one copy of it and keeps the others. */
  lemma RemoveImageMultiset(images: seq<ImageItem>, index: int)
    requires 0 <= index < |images|
    ensures multiset(RemoveImage(images, index)) + multiset{images[index]} == multiset(images)
  {
    assert images == images[..index] + [images[index]] + images[index + 1..];
  }

  /**
   * `handleImageUpload`: with no selection nothing changes; otherwise one new item
   * per file, in file order, after the existing images.
   */
  function AppendUploads(images: seq<ImageItem>, files: Option<seq<Forms.UploadedFile>>,
                         previewUrl: Forms.UploadedFile -> string): (r: seq<ImageItem>)
    ensures files.None? || files.value == [] ==> r == images
    ensures files.Some? ==> |r| == |images| + |files.value|
    ensures |images| <= |r| && r[..|images|] == images
    ensures files.Some? ==> forall i :: 0 <= i < |files.value| ==>
      r[|images| + i] == ImageItem(previewUrl(files.value[i]), Some(files.value[i]))
  {
    if files.None? || |files.value| == 0 then images
    else
      images + seq(|files.value|, i requires 0 <= i < |files.value| =>
        ImageItem(previewUrl(files.value[i]), Some(files.value[i])))
  }

  // ------------------------------------------------------------------- loading

  /** A price field of the loaded car: missing or null, a number, or a string. */
  datatype PriceField = Nullish | Amount(value: real) | Literal(text: string)

  /** The optional nested `pricing` object. */
  datatype Pricing = Pricing(salePrice: PriceField, dailyRentPrice: PriceField,
                             weeklyRentPrice: PriceField, monthlyRentPrice: PriceField)

  /** The loaded car, after `response.data || response`. */
  datatype CarRecord = CarRecord(
    title: Option<string>,
    description: Option<string>,
    manufactureYear: Option<int>,
    carType: Option<string>,
    model: Option<string>,
    listingType: Option<string>,
    pricing: Option<Pricing>,
    salePrice: PriceField,
    dailyRentPrice: PriceField,
    weeklyRentPrice: PriceField,
    monthlyRentPrice: PriceField,
    additionalFeatures: Option<seq<string>>,
    images: Option<seq<string>>)

  /** The form's fields; prices are the strings of their inputs. */
  datatype FormState = FormState(
    title: string,
    description: string,
    manufactureYear: int,
    carType: string,
    model: string,
    listingType: string,
    dailyRentPrice: string,
    weeklyRentPrice: string,
    monthlyRentPrice: string,
    salePrice: string,
    additionalFeatures: seq<string>)

  /** The blank form: the current year and 'sale'. */
  function EmptyForm(currentYear: int): FormState {
    FormState("", "", currentYear, "", "", "sale", "", "", "", "", [])
  }

  /** `nested?.x ?? flat`: the nested value unless the object is missing or the value nullish. */
  function PickPrice(nested: Option<PriceField>, flat: PriceField): (r: PriceField)
    ensures nested.Some? && !nested.value.Nullish? ==> r == nested.value
    ensures nested.None? || nested.value.Nullish? ==> r == flat
  {
    if nested.Some? && !nested.value.Nullish? then nested.value else flat
  }

  /** `x ? String(x) : ''`: 0, the empty string and nullish values all give ''. */
  function PriceText(p: PriceField, numText: real -> string): (r: string)
    ensures p.Nullish? ==> r == ""
    ensures p.Amount? ==> r == (if p.value == 0.0 then "" else numText(p.value))
    ensures p.Literal? ==> r == p.text
  {
    match p
    case Nullish => ""
    case Amount(v) => if v == 0.0 then "" else numText(v)
    case Literal(t) => t
  }

  function Text0(s: Option<string>): (r: string)
    ensures s.None? ==> r == ""
    ensures s.Some? ==> r == s.value
  {
    s.GetOr("")
  }

  /** `fetchCar`'s normalisation of a loaded car into the form. */
  function LoadedForm(data: CarRecord, currentYear: int, numText: real -> string): (r: FormState)
    ensures r.title == Text0(data.title) && r.description == Text0(data.description)
    ensures r.carType == Text0(data.carType) && r.model == Text0(data.model)
    ensures r.manufactureYear == if data.manufactureYear.None? || data.manufactureYear.value == 0
      then currentYear else data.manufactureYear.value
    ensures r.listingType == if data.listingType.None? || data.listingType.value == ""
      then "sale" else data.listingType.value
    ensures r.salePrice == PriceText(PickPrice(NestedSale(data), data.salePrice), numText)
    ensures r.dailyRentPrice == PriceText(PickPrice(NestedDaily(data), data.dailyRentPrice), numText)
    ensures r.weeklyRentPrice == PriceText(PickPrice(NestedWeekly(data), data.weeklyRentPrice), numText)
    ensures r.monthlyRentPrice == PriceText(PickPrice(NestedMonthly(data), data.monthlyRentPrice), numText)
    ensures r.additionalFeatures == data.additionalFeatures.GetOr([])
  {
    FormState(
      Text0(data.title),
      Text0(data.description),
      if data.manufactureYear.None? || data.manufactureYear.value == 0 then currentYear else data.manufactureYear.value,
      Text0(data.carType),
      Text0(data.model),
      if data.listingType.None? || data.listingType.value == "" then "sale" else data.listingType.value,
      PriceText(PickPrice(NestedDaily(data), data.dailyRentPrice), numText),
      PriceText(PickPrice(NestedWeekly(data), data.weeklyRentPrice), numText),
      PriceText(PickPrice(NestedMonthly(data), data.monthlyRentPrice), numText),
      PriceText(PickPrice(NestedSale(data), data.salePrice), numText),
      data.additionalFeatures.GetOr([]))
  }

  function NestedSale(data: CarRecord): Option<PriceField> {
    if data.pricing.Some? then Some(data.pricing.value.salePrice) else None
  }

  function NestedDaily(data: CarRecord): Option<PriceField> {
    if data.pricing.Some? then Some(data.pricing.value.dailyRentPrice) else None
  }

  function NestedWeekly(data: CarRecord): Option<PriceField> {
    if data.pricing.Some? then Some(data.pricing.value.weeklyRentPrice) else None
  }

  function NestedMonthly(data: CarRecord): Option<PriceField> {
    if data.pricing.Some? then Some(data.pricing.value.monthlyRentPrice) else None
  }

  /** The image list after loading: the car's URLs when it has an array, else unchanged. */
  function LoadedImages(data: CarRecord, previous: seq<ImageItem>): (r: seq<ImageItem>)
    ensures data.images.None? ==> r == previous
    ensures data.images.Some? ==> |r| == |data.images.value|
    ensures data.images.Some? ==> forall i :: 0 <= i < |r| ==> r[i] == ImageItem(data.images.value[i], None)
  {
    match data.images
    case None => previous
    case Some(urls) => seq(|urls|, i requires 0 <= i < |urls| => ImageItem(urls[i], None))
  }

  /** A null nested price falls back to the flat one. */
  lemma NullishNestedPriceFallsBack(data: CarRecord, numText: real -> string)
    requires data.pricing.Some? && data.pricing.value.salePrice.Nullish?
    ensures LoadedForm(data, 0, numText).salePrice == PriceText(data.salePrice, numText)
  {
  }

  /** A nested 0 wins over the flat price, and then shows as an empty input. */
  lemma ZeroNestedPriceShowsEmpty(data: CarRecord, numText: real -> string)
    requires data.pricing.Some? && data.pricing.value.salePrice == Amount(0.0)
    ensures LoadedForm(data, 0, numText).salePrice == ""
  {
  }

  // -------------------------------------------------------------------- submit

  /** The entry a `formData.append(name, text)` adds. */
  function TextEntry(name: string, value: string): Forms.Entry {
    Forms.Entry(name, Forms.TextValue(value))
  }

  /** The six fields sent on every submit, in order. */
  function BasicEntries(form: FormState): (r: seq<Forms.Entry>)
    ensures Forms.Names(r) == ["title", "description", "type", "model", "manufacture_year", "listing_type"]
    ensures r[4].value == Forms.TextValue(Text.IntToString(form.manufactureYear))
  {
    [TextEntry("title", form.title), TextEntry("description", form.description),
     TextEntry("type", form.carType), TextEntry("model", form.model),
     TextEntry("manufacture_year", Text.IntToString(form.manufactureYear)),
     TextEntry("listing_type", form.listingType)]
  }

  function IfFilled(name: string, value: string): (r: seq<Forms.Entry>)
    ensures |r| <= 1 && (r != [] <==> value != "")
    ensures r != [] ==> r[0] == TextEntry(name, value)
  {
    if value != "" then [TextEntry(name, value)] else []
  }

  /** The prices, each only when its input is non-empty. */
  function PriceEntries(form: FormState): seq<Forms.Entry> {
    IfFilled("sale_price", form.salePrice) + IfFilled("daily_rent_price", form.dailyRentPrice)
    + IfFilled("weekly_rent_price", form.weeklyRentPrice) + IfFilled("monthly_rent_price", form.monthlyRentPrice)
  }

  function FeatureEntry(f: string): Forms.Entry {
    TextEntry("additional_features[]", f)
  }

  /** A new file is sent as 'images[]', a kept image as its URL under 'keep_images[]'. */
  function ImageEntry(img: ImageItem): (r: Forms.Entry)
    ensures img.file.Some? ==> r == Forms.Entry("images[]", Forms.FileValue(img.file.value))
    ensures img.file.None? ==> r == TextEntry("keep_images[]", img.url)
  {
    if img.file.Some? then Forms.Entry("images[]", Forms.FileValue(img.file.value))
    else TextEntry("keep_images[]", img.url)
  }

  /** `isEdit && id`: editing exactly when the route carries a non-empty id. */
  predicate IsEdit(routeId: Option<string>) {
    routeId.Some? && routeId.value != ""
  }

  /** The body `handleSubmit` builds, as a specification of its append sequence. */
  function Submission(form: FormState, images: seq<ImageItem>, routeId: Option<string>): seq<Forms.Entry> {
    Fields(form, images) + MethodOverride(routeId)
  }

  /** Everything before the method override. */
  function Fields(form: FormState, images: seq<ImageItem>): seq<Forms.Entry> {
    BasicEntries(form) + PriceEntries(form) + FeatureEntries(form.additionalFeatures) + ImageEntries(images)
  }

  /** `if (isEdit && id) data.append('_method', 'PUT')`. */
  function MethodOverride(routeId: Option<string>): seq<Forms.Entry> {
    if IsEdit(routeId) then [TextEntry("_method", "PUT")] else []
  }

  function FeatureEntries(fs: seq<string>): (r: seq<Forms.Entry>)
    ensures |r| == |fs| && forall k :: 0 <= k < |fs| ==> r[k] == FeatureEntry(fs[k])
  {
    seq(|fs|, k requires 0 <= k < |fs| => FeatureEntry(fs[k]))
  }

  function ImageEntries(images: seq<ImageItem>): (r: seq<Forms.Entry>)
    ensures |r| == |images| && forall k :: 0 <= k < |images| ==> r[k] == ImageEntry(images[k])
  {
    seq(|images|, k requires 0 <= k < |images| => ImageEntry(images[k]))
  }

  /** `handleSubmit`: the `append` calls in order, with its two `forEach` loops. */
  method BuildSubmission(form: FormState, images: seq<ImageItem>, routeId: Option<string>)
    returns (data: seq<Forms.Entry>)
    ensures data == Submission(form, images, routeId)
  {
    data := AppendBasic(form);
    data := AppendPrices(data, form);
    data := AppendFeatures(data, form.additionalFeatures);
    data := AppendImages(data, images);
    if IsEdit(routeId) {
      data := data + [TextEntry("_method", "PUT")];
    }
  }

  /** The six unconditional `append` calls. */
  method AppendBasic(form: FormState) returns (data: seq<Forms.Entry>)
    ensures data == BasicEntries(form)
  {
    data := [];
    data := data + [TextEntry("title", form.title)];
    data := data + [TextEntry("description", form.description)];
    data := data + [TextEntry("type", form.carType)];
    data := data + [TextEntry("model", form.model)];
    data := data + [TextEntry("manufacture_year", Text.IntToString(form.manufactureYear))];
    data := data + [TextEntry("listing_type", form.listingType)];
  }

  /** The four conditional price `append` calls. */
  method AppendPrices(data0: seq<Forms.Entry>, form: FormState) returns (data: seq<Forms.Entry>)
    ensures data == data0 + PriceEntries(form)
  {
    data := AppendIfFilled(data0, "sale_price", form.salePrice);
    data := AppendIfFilled(data, "daily_rent_price", form.dailyRentPrice);
    data := AppendIfFilled(data, "weekly_rent_price", form.weeklyRentPrice);
    data := AppendIfFilled(data, "monthly_rent_price", form.monthlyRentPrice);
  }

  /** `if (value) data.append(name, value)`. */
  method AppendIfFilled(data0: seq<Forms.Entry>, name: string, value: string) returns (data: seq<Forms.Entry>)
    ensures data == data0 + IfFilled(name, value)
  {
    data := data0;
    if value != "" {
      data := data + [TextEntry(name, value)];
    }
  }

  /** `formData.additional_features.forEach(f => data.append('additional_features[]', f))`. */
  method AppendFeatures(data0: seq<Forms.Entry>, fs: seq<string>) returns (data: seq<Forms.Entry>)
    ensures data == data0 + FeatureEntries(fs)
  {
    data := data0;
    var i := 0;
    while i < |fs|
      invariant 0 <= i <= |fs|
      invariant data == data0 + FeatureEntries(fs[..i])
    {
      assert fs[..i + 1] == fs[..i] + [fs[i]];
      assert FeatureEntries(fs[..i + 1]) == FeatureEntries(fs[..i]) + [FeatureEntry(fs[i])];
      data := data + [FeatureEntry(fs[i])];
      i := i + 1;
    }
    assert fs[..i] == fs;
  }

  /** `images.forEach(...)`: a new file under 'images[]', a kept URL under 'keep_images[]'. */
  method AppendImages(data0: seq<Forms.Entry>, images: seq<ImageItem>) returns (data: seq<Forms.Entry>)
    ensures data == data0 + ImageEntries(images)
  {
    data := data0;
    var j := 0;
    while j < |images|
      invariant 0 <= j <= |images|
      invariant data == data0 + ImageEntries(images[..j])
    {
      assert images[..j + 1] == images[..j] + [images[j]];
      assert ImageEntries(images[..j + 1]) == ImageEntries(images[..j]) + [ImageEntry(images[j])];
      if images[j].file.Some? {
        data := data + [Forms.Entry("images[]", Forms.FileValue(images[j].file.value))];
      } else {
        data := data + [TextEntry("keep_images[]", images[j].url)];
      }
      j := j + 1;
    }
    assert images[..j] == images;
  }

  /** No field before the override is named '_method'. */
  lemma FieldsNeverNamedMethod(form: FormState, images: seq<ImageItem>)
    ensures Forms.NoneNamed(Fields(form, images), "_method")
  {
    var b, p := BasicEntries(form), PriceEntries(form);
    var f, i := FeatureEntries(form.additionalFeatures), ImageEntries(images);
    BasicEntriesNotMethod(form);
    PriceEntriesNotMethod(form);
    assert Forms.NoneNamed(f, "_method");
    assert Forms.NoneNamed(i, "_method") by {
      forall k | 0 <= k < |i| ensures i[k].name != "_method" {
        assert i[k] == ImageEntry(images[k]);
      }
    }
    Forms.NoneNamedConcat(b, p, "_method");
    Forms.NoneNamedConcat(b + p, f, "_method");
    Forms.NoneNamedConcat(b + p + f, i, "_method");
  }

  lemma BasicEntriesNotMethod(form: FormState)
    ensures Forms.NoneNamed(BasicEntries(form), "_method")
  {
    var b := BasicEntries(form);
    forall k | 0 <= k < |b| ensures b[k].name != "_method" {
      assert b[k].name == Forms.Names(b)[k];
    }
  }

  lemma PriceEntriesNotMethod(form: FormState)
    ensures Forms.NoneNamed(PriceEntries(form), "_method")
  {
    var a := IfFilled("sale_price", form.salePrice);
    var b := IfFilled("daily_rent_price", form.dailyRentPrice);
    var c := IfFilled("weekly_rent_price", form.weeklyRentPrice);
    var d := IfFilled("monthly_rent_price", form.monthlyRentPrice);
    Forms.NoneNamedConcat(a, b, "_method");
    Forms.NoneNamedConcat(a + b, c, "_method");
    Forms.NoneNamedConcat(a + b + c, d, "_method");
  }

  lemma FeatureAt(form: FormState, images: seq<ImageItem>, k: nat)
    requires k < |form.additionalFeatures|
    ensures Fields(form, images)[6 + |PriceEntries(form)| + k] == FeatureEntry(form.additionalFeatures[k])
  {
    var bp := BasicEntries(form) + PriceEntries(form);
    var bpf := bp + FeatureEntries(form.additionalFeatures);
    assert Fields(form, images) == bpf + ImageEntries(images);
    assert bpf[|bp| + k] == FeatureEntries(form.additionalFeatures)[k];
  }

  lemma ImageAt(form: FormState, images: seq<ImageItem>, k: nat)
    requires k < |images|
    ensures Fields(form, images)[6 + |PriceEntries(form)| + |form.additionalFeatures| + k] == ImageEntry(images[k])
  {
    var bpf := BasicEntries(form) + PriceEntries(form) + FeatureEntries(form.additionalFeatures);
    assert Fields(form, images) == bpf + ImageEntries(images);
  }

  /** Feature `k` and image `k` sit after the basic fields and the filled prices. */
  lemma {:induction false} FieldsLayout(form: FormState, images: seq<ImageItem>)
    ensures var d := Fields(form, images);
      var p := 6 + |PriceEntries(form)|;
      var fe := |form.additionalFeatures|;
      |d| == p + fe + |images| &&
      d[..6] == BasicEntries(form) &&
      (forall k :: 0 <= k < fe ==> d[p + k] == FeatureEntry(form.additionalFeatures[k])) &&
      (forall k :: 0 <= k < |images| ==> d[p + fe + k] == ImageEntry(images[k]))
  {
    var b := BasicEntries(form);
    var rest := PriceEntries(form) + FeatureEntries(form.additionalFeatures) + ImageEntries(images);
    assert Fields(form, images) == b + rest;
    assert (b + rest)[..6] == b;
    forall k | 0 <= k < |form.additionalFeatures| {
      FeatureAt(form, images, k);
    }
    forall k | 0 <= k < |images| {
      ImageAt(form, images, k);
    }
  }

  /**
   * The body is the fields (laid out as `FieldsLayout` states: the six basic ones,
   * the filled prices, one entry per feature and one per image, in order), and then
   * '_method' = 'PUT' exactly when editing, as the last entry.
   */
  lemma SubmissionLayout(form: FormState, images: seq<ImageItem>, routeId: Option<string>)
    ensures |Submission(form, images, routeId)| == |Fields(form, images)| + (if IsEdit(routeId) then 1 else 0)
    ensures Submission(form, images, routeId)[..|Fields(form, images)|] == Fields(form, images)
    ensures Forms.Names(Submission(form, images, routeId)[..6])
         == ["title", "description", "type", "model", "manufacture_year", "listing_type"]
    ensures var d := Submission(form, images, routeId);
      IsEdit(routeId) <==> d[|d| - 1] == TextEntry("_method", "PUT")
  {
    var fields := Fields(form, images);
    var d := Submission(form, images, routeId);
    assert d == fields + MethodOverride(routeId);
    FieldsLayout(form, images);
    assert d[..6] == fields[..6];
    SubmissionEndsWithOverrideIffEdit(form, images, routeId);
  }

  lemma SubmissionEndsWithOverrideIffEdit(form: FormState, images: seq<ImageItem>, routeId: Option<string>)
    ensures var d := Submission(form, images, routeId);
      |d| > 0 && (IsEdit(routeId) <==> d[|d| - 1] == TextEntry("_method", "PUT"))
  {
    var fields := Fields(form, images);
    assert |fields| >= 6;
    if !IsEdit(routeId) {
      FieldsNeverNamedMethod(form, images);
      assert Submission(form, images, routeId) == fields;
      assert fields[|fields| - 1].name != "_method";
    }
  }

  /** A price is sent exactly when its input is non-empty, and then with that text. */
  lemma SalePriceSentIffFilled(form: FormState)
    ensures (exists k :: 0 <= k < |PriceEntries(form)| && PriceEntries(form)[k].name == "sale_price") <==> form.salePrice != ""
    ensures form.salePrice != "" ==> PriceEntries(form)[0] == TextEntry("sale_price", form.salePrice)
  {
    if form.salePrice != "" {
      assert PriceEntries(form)[0].name == "sale_price";
    } else {
      var rest := IfFilled("daily_rent_price", form.dailyRentPrice) + IfFilled("weekly_rent_price", form.weeklyRentPrice)
        + IfFilled("monthly_rent_price", form.monthlyRentPrice);
      assert PriceEntries(form) == rest;
      assert forall k :: 0 <= k < |rest| ==> rest[k].name != "sale_price";
    }
  }
}

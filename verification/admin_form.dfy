/** The create and edit forms of the admin page: their submit checks and the
    editable list of image urls. */
module AdminForm {
  import opened Wrappers
  import opened Records
  import opened Sequences
  import opened Text

  /** The form state both modals keep. `endTime` is the text of the
      date-time input, empty until one is picked. */
  datatype ProductFormValues = ProductFormValues(
    title: string,
    description: string,
    startingPrice: int,
    endTime: string,
    categoryId: Option<nat>,
    images: seq<string>,
    active: bool)

  /** "Veuillez remplir tous les champs requis" and "Toutes les URLs
      d'images doivent être valides". */
  datatype AdminFormError = MissingField | BlankImage

  /** `img => img.trim()` used as a filter test. */
  function NotBlank(): string -> bool {
    (img: string) => !IsBlank(img)
  }

  /** `handleSubmit` of either modal up to the request: title, description
      and end time must be non-empty (the start price is not checked), and
      no image entry may be blank; the urls sent are the non-blank entries. */
  function ValidateProductForm(f: ProductFormValues): (r: Result<seq<string>, AdminFormError>)
    ensures r == Failure(MissingField) <==> f.title == "" || f.description == "" || f.endTime == ""
    ensures r == Failure(BlankImage) <==>
      f.title != "" && f.description != "" && f.endTime != "" && exists img :: img in f.images && IsBlank(img)
    ensures r.Success? ==> forall img :: img in r.value ==> !IsBlank(img)
  {
    if f.title == "" || f.description == "" || f.endTime == "" then Failure(MissingField)
    else if exists img :: img in f.images && IsBlank(img) then Failure(BlankImage)
    else Success(Filter(f.images, NotBlank()))
  }

  /** Once the blank check has passed, filtering drops nothing: the urls
      sent are the entries exactly, in order. */
  lemma {:induction false} SentImagesAreEntries(f: ProductFormValues)
    requires ValidateProductForm(f).Success?
    ensures ValidateProductForm(f).value == f.images
  {
    FilterKeepsAll(f.images, NotBlank());
  }

  /** `addImageField`: one empty entry at the end. */
  function AddImageField(imgs: seq<string>): (r: seq<string>)
    ensures |r| == |imgs| + 1 && r[..|imgs|] == imgs && r[|imgs|] == ""
  {
    imgs + [""]
  }

  /** `removeImageField(k)`: keep every entry whose position is not `k`. */
  function RemoveImageField(imgs: seq<string>, k: int): (r: seq<string>)
    ensures 0 <= k < |imgs| ==> r == imgs[..k] + imgs[k + 1..]
    ensures !(0 <= k < |imgs|) ==> r == imgs
  {
    if imgs == [] then []
    else
      var rest := RemoveImageField(imgs[1..], k - 1);
      if k == 0 then rest else [imgs[0]] + rest
  }

  /** `updateImage(k, v)`: position `k` becomes `v`, nothing else moves. */
  function UpdateImage(imgs: seq<string>, k: int, v: string): (r: seq<string>)
    ensures |r| == |imgs|
    ensures 0 <= k < |imgs| ==> r == imgs[k := v]
    ensures !(0 <= k < |imgs|) ==> r == imgs
  {
    seq(|imgs|, i requires 0 <= i < |imgs| => if i == k then v else imgs[i])
  }

  /** The edit modal's first image list: the listing's images, or one empty
      entry when it has none. */
  function InitialImages(p: AdminProduct): (imgs: seq<string>)
    ensures |imgs| >= 1
    ensures p.images != [] ==> imgs == p.images
    ensures p.images == [] ==> imgs == [""]
  {
    if |p.images| > 0 then p.images else [""]
  }

  /** The create modal's first image list. */
  const NewFormImages: seq<string> := [""]

  /** What the admin can do to the image list. */
  datatype ImageEdit = Add | Remove(k: nat) | Update(k: nat, v: string)

  /** The remove button exists only on a shown row while there is more than
      one row; add and typing into a shown row are always possible. */
  predicate Offered(e: ImageEdit, imgs: seq<string>) {
    match e
    case Add => true
    case Remove(k) => |imgs| > 1 && k < |imgs|
    case Update(k, _) => k < |imgs|
  }

  function ApplyEdit(e: ImageEdit, imgs: seq<string>): seq<string> {
    match e
    case Add => AddImageField(imgs)
    case Remove(k) => RemoveImageField(imgs, k)
    case Update(k, v) => UpdateImage(imgs, k, v)
  }

  /** Each edit of `edits` is offered when it is made. */
  predicate AllOffered(edits: seq<ImageEdit>, imgs: seq<string>)
    decreases |edits|
  {
    edits == [] || (Offered(edits[0], imgs) && AllOffered(edits[1..], ApplyEdit(edits[0], imgs)))
  }

  function ApplyEdits(edits: seq<ImageEdit>, imgs: seq<string>): seq<string>
    decreases |edits|
  {
    if edits == [] then imgs else ApplyEdits(edits[1..], ApplyEdit(edits[0], imgs))
  }

  /** Starting from a form's first list, no sequence of offered edits
      empties the image list. */
  lemma {:induction false} ImageListNeverEmpty(edits: seq<ImageEdit>, imgs: seq<string>)
    requires |imgs| >= 1 && AllOffered(edits, imgs)
    ensures |ApplyEdits(edits, imgs)| >= 1
    decreases |edits|
  {
    if edits != [] {
      ImageListNeverEmpty(edits[1..], ApplyEdit(edits[0], imgs));
    }
  }
}

/** The values the loaders pass around and the image views they draw into. */
module Model {
  import opened JavaLang

  type Url = JavaString

  /** An `ImageView` of the list, identified by its slot. */
  type ViewId = nat

  /** `ImageModel`: the url of an image and the view it is to be shown in. */
  datatype ImageModel = ImageModel(url: Url, imageView: ViewId)

  /** A decoded `android.graphics.Bitmap`, known only by its identity. */
  datatype Bitmap = Bitmap(id: nat)

  /** What an image view draws: the placeholder resource, a bitmap, or the error image. */
  datatype Content = Placeholder | Picture(bitmap: Bitmap) | NoCover

  /**
   * What a view shows, together with the url of the request that put it there.
   * The url is an observation of the model (a view does not know it), so that
   * "the view shows an image of the url it was last asked for" can be stated.
   */
  datatype Shown = Shown(content: Content, forUrl: Url)

  /** The image views on screen; `Set` is `setImageBitmap` or `setImageResource`. */
  class Views {
    var shown: map<ViewId, Shown>

    constructor ()
      ensures shown == map[]
    {
      shown := map[];
    }

    method Set(v: ViewId, content: Content, forUrl: Url)
      modifies this
      ensures shown == old(shown)[v := Shown(content, forUrl)]
    {
      shown := shown[v := Shown(content, forUrl)];
    }
  }
}

/**
 * The parts of an android.view.View that the hierarchy serialiser reads, as a value.
 * Where the Java code calls into the framework (resource lookups, bitmap allocation,
 * PNG/Base64 encoding, the view's own onDraw, a Future that is interrupted), the
 * outcome of that call is recorded here as data.
 */
module Views {
  import opened Wrappers
  import opened Text
  import opened Canvas

  /** View.VISIBLE, View.INVISIBLE, View.GONE and View.NO_ID. */
  const VISIBLE: int32 := 0
  const INVISIBLE: int32 := 4
  const GONE: int32 := 8
  const NO_ID: int32 := -1

  datatype Rect = Rect(left: int32, top: int32, right: int32, bottom: int32)

  /**
   * android.content.res.Resources as three partial lookups; an id that a map does not
   * hold makes the corresponding getResource...Name call throw NotFoundException.
   */
  datatype Resources = Resources(
    packageNames: map<int32, string>,
    typeNames: map<int32, string>,
    entryNames: map<int32, string>)

  /** The view's background drawable, with the padding Drawable.getPadding reports. */
  datatype Background =
    | NoBackground
    | ColorDrawable(color: int32, padding: Rect)
    | OtherDrawable(padding: Rect)

  /** The three captures printHierarchy posts to the view's UI thread. */
  datatype Task = PropertiesTask | BackgroundTask | ContentTask

  /**
   * Outcomes of the framework calls made while capturing images of the view:
   * - backgroundAllocates, contentAllocates: Bitmap.createBitmap succeeds for the
   *   background and for the content capture respectively (false: OutOfMemoryError);
   * - backgroundPng, contentPng: the Base64 text of the encoded PNGs;
   * - onDrawChain: the classes from the view's own class up to (not including)
   *   android.view.View, each with the canvas calls of the onDraw it declares, if any;
   * - interrupted: the captures whose Future.get throws in the waiting thread.
   */
  datatype Render = Render(
    backgroundAllocates: bool,
    contentAllocates: bool,
    backgroundPng: string,
    contentPng: string,
    onDrawChain: seq<Option<seq<CanvasOp>>>,
    interrupted: set<Task>)

  /**
   * A view. `children` is what getChildCount/getChildAt report; it is read only
   * when `isGroup` (the view is a ViewGroup). `margin` is present when the layout
   * params are MarginLayoutParams.
   */
  datatype View = View(
    className: string,
    id: int32,
    resources: Option<Resources>,
    hashCode: int32,
    left: int32,
    top: int32,
    width: int32,
    height: int32,
    padding: Rect,
    margin: Option<Rect>,
    background: Background,
    visibility: int32,
    isGroup: bool,
    children: seq<View>,
    render: Render)
}

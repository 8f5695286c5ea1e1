/** SpriteObject: a GameObject drawn from an image, with an integer base size and a real
    scale per axis. Only the image's size matters here, so an image is its width and height. */
module Sprites {
  import opened Wrappers
  import opened Vectors
  import opened GameObjects

  /** A decoded image (BufferedImage), reduced to its dimensions. */
  datatype Image = Image(width: int, height: int)

  /** What ImageIO.read hands back for a path: it throws IOException (ReadFailed), returns
      null because no reader understands the file (NoReader), or returns an image. */
  datatype ImageRead = ReadFailed | NoReader | Decoded(image: Image)

  /** The exceptions the sprite operations throw. IOError is IOException; NullImage is the
      NullPointerException of reading the size of a null image; the last three are the three
      IllegalArgumentException checks of setImageFromSubImage. */
  datatype SpriteError = IOError | NullImage | NullSource | NegativeOrEmptyRegion | RegionOutsideSource

  /** The fields of SpriteObject. width and height are the base size; getWidth and getHeight
      apply the scale. */
  datatype Sprite = Sprite(body: Body, image: Option<Image>, width: int, height: int, scaleX: real, scaleY: real)

  const MinInt: int := -0x8000_0000
  const MaxInt: int := 0x7FFF_FFFF

  predicate IsInt32(n: int)
  {
    MinInt <= n <= MaxInt
  }

  /** Java's (int) cast of a floating-point value: rounds toward zero, saturating at the int
      range. */
  function IntCast(r: real): (n: int)
    ensures IsInt32(n)
    ensures 0.0 <= r < MaxInt as real ==> n >= 0 && n as real <= r < n as real + 1.0
    ensures MinInt as real < r <= 0.0 ==> n <= 0 && n as real - 1.0 < r <= n as real
    ensures r >= MaxInt as real ==> n == MaxInt
    ensures r <= MinInt as real ==> n == MinInt
  {
    if r >= MaxInt as real then MaxInt
    else if r <= MinInt as real then MinInt
    else if r >= 0.0 then r.Floor
    else -((-r).Floor)
  }

  /** getWidth: the base width times scaleX, truncated to int; for a non-negative product
      inside the int range that is its whole part. */
  function Width(s: Sprite): (w: int)
    ensures IsInt32(w)
    ensures 0.0 <= s.width as real * s.scaleX < MaxInt as real ==>
              w >= 0 && w as real <= s.width as real * s.scaleX < w as real + 1.0
  {
    IntCast(s.width as real * s.scaleX)
  }

  /** getHeight: the base height times scaleY, truncated to int, in the same way. */
  function Height(s: Sprite): (h: int)
    ensures IsInt32(h)
    ensures 0.0 <= s.height as real * s.scaleY < MaxInt as real ==>
              h >= 0 && h as real <= s.height as real * s.scaleY < h as real + 1.0
  {
    IntCast(s.height as real * s.scaleY)
  }

  /** The state every constructor starts from: a fresh body moved to (posX, posY), scale 1. */
  function Placed(posX: int, posY: int, image: Option<Image>, width: int, height: int): (s: Sprite)
    ensures s.body.position == Some(Vec2(posX as real, posY as real))
    ensures s.body.speed == Some(Origin) && s.body.hasGravity == Some(false)
    ensures s.scaleX == 1.0 && s.scaleY == 1.0
    ensures s.image == image && s.width == width && s.height == height
  {
    Sprite(SetPosition(NewBody, Some(Vec2(posX as real, posY as real))), image, width, height, 1.0, 1.0)
  }

  /** SpriteObject(imagePath, posX, posY): the size is the loaded image's; a read that throws
      or yields null is an IOException. */
  function FromFile(read: ImageRead, posX: int, posY: int): (r: Result<Sprite, SpriteError>)
    ensures r.Success? <==> read.Decoded?
    ensures r.Failure? ==> r.error == IOError
    ensures r.Success? ==> r.value == Placed(posX, posY, Some(read.image), read.image.width, read.image.height)
  {
    match read
    case Decoded(img) => Success(Placed(posX, posY, Some(img), img.width, img.height))
    case _ => Failure(IOError)
  }

  /** SpriteObject(imagePath, posX, posY, width, height): as FromFile, then the given base size
      replaces the image's. */
  function FromFileSized(read: ImageRead, posX: int, posY: int, width: int, height: int): (r: Result<Sprite, SpriteError>)
    ensures r.Success? <==> read.Decoded?
    ensures r.Failure? ==> r.error == IOError
    ensures r.Success? ==> r.value == Placed(posX, posY, Some(read.image), width, height)
  {
    match read
    case Decoded(img) => Success(Placed(posX, posY, Some(img), width, height))
    case _ => Failure(IOError)
  }

  /** SpriteObject(posX, posY): no image, and the int fields keep their default 0. */
  function Blank(posX: int, posY: int): (s: Sprite)
    ensures s == Placed(posX, posY, None, 0, 0)
    ensures Width(s) == 0 && Height(s) == 0
  {
    Placed(posX, posY, None, 0, 0)
  }

  /** SpriteObject(image, posX, posY): the size is the image's; a null image throws
      NullPointerException when its width is read. */
  function FromImage(image: Option<Image>, posX: int, posY: int): (r: Result<Sprite, SpriteError>)
    ensures r.Success? <==> image.Some?
    ensures r.Failure? ==> r.error == NullImage
    ensures r.Success? ==> r.value == Placed(posX, posY, image, image.value.width, image.value.height)
  {
    match image
    case None => Failure(NullImage)
    case Some(img) => Success(Placed(posX, posY, image, img.width, img.height))
  }

  /** setScale(scaleX, scaleY): only the scale changes. */
  function SetScale(s: Sprite, scaleX: real, scaleY: real): (r: Sprite)
    ensures r.scaleX == scaleX && r.scaleY == scaleY
    ensures r.body == s.body && r.image == s.image && r.width == s.width && r.height == s.height
  {
    s.(scaleX := scaleX, scaleY := scaleY)
  }

  /** setScale(scale): the same scale on both axes. */
  function SetUniformScale(s: Sprite, scale: real): (r: Sprite)
    ensures r == SetScale(s, scale, scale)
  {
    s.(scaleX := scale, scaleY := scale)
  }

  /** setSize(width, height): only the base size changes. */
  function SetSize(s: Sprite, width: int, height: int): (r: Sprite)
    ensures r.width == width && r.height == height
    ensures r.body == s.body && r.image == s.image && r.scaleX == s.scaleX && r.scaleY == s.scaleY
  {
    s.(width := width, height := height)
  }

  /** setImage(image, keepSize): the image is always replaced (even by null); the base size
      becomes the image's only when keepSize is false and the image is not null. */
  function SetImageKeep(s: Sprite, image: Option<Image>, keepSize: bool): (r: Sprite)
    ensures r.image == image
    ensures r.body == s.body && r.scaleX == s.scaleX && r.scaleY == s.scaleY
    ensures (r.width, r.height) == (if !keepSize && image.Some? then (image.value.width, image.value.height)
                                    else (s.width, s.height))
  {
    if !keepSize && image.Some? then s.(image := image, width := image.value.width, height := image.value.height)
    else s.(image := image)
  }

  /** setImage(image): setImage(image, false). */
  function SetImage(s: Sprite, image: Option<Image>): (r: Sprite)
    ensures r == SetImageKeep(s, image, false)
  {
    if image.Some? then s.(image := image, width := image.value.width, height := image.value.height)
    else s.(image := image)
  }

  /** setImage(imagePath): a read that throws propagates IOException; a null read is passed on,
      so the image becomes null and the size is kept. */
  function SetImageFromFile(s: Sprite, read: ImageRead): (r: Result<Sprite, SpriteError>)
    ensures r.Failure? <==> read.ReadFailed?
    ensures r.Failure? ==> r.error == IOError
    ensures read.NoReader? ==> r == Success(SetImage(s, None))
    ensures read.Decoded? ==> r == Success(SetImage(s, Some(read.image)))
  {
    match read
    case ReadFailed => Failure(IOError)
    case NoReader => Success(SetImage(s, None))
    case Decoded(img) => Success(SetImage(s, Some(img)))
  }

  /** The integer checks of setImageFromSubImage, in the order they are made. */
  function CheckRegion(source: Option<Image>, x: int, y: int, width: int, height: int): (r: Option<SpriteError>)
    ensures r == Some(NullSource) <==> source.None?
    ensures r == Some(NegativeOrEmptyRegion) <==>
              source.Some? && (x < 0 || y < 0 || width <= 0 || height <= 0)
    ensures r == Some(RegionOutsideSource) <==>
              && source.Some? && x >= 0 && y >= 0 && width > 0 && height > 0
              && (x + width > source.value.width || y + height > source.value.height)
    ensures r.Some? ==> r.value in {NullSource, NegativeOrEmptyRegion, RegionOutsideSource}
  {
    if source.None? then Some(NullSource)
    else if x < 0 || y < 0 || width <= 0 || height <= 0 then Some(NegativeOrEmptyRegion)
    else if x + width > source.value.width || y + height > source.value.height then Some(RegionOutsideSource)
    else None
  }

  /** setImageFromSubImage(sourceImage, x, y, width, height, keepSize): on any failed check it
      throws and changes nothing; otherwise the image becomes the width-by-height region, and the
      base size becomes (width, height) unless keepSize holds. The scale is never touched. */
  function SetImageFromSubImage(s: Sprite, source: Option<Image>, x: int, y: int, width: int, height: int,
                                keepSize: bool): (r: Result<Sprite, SpriteError>)
    ensures r.Failure? <==> CheckRegion(source, x, y, width, height).Some?
    ensures r.Failure? ==> r.error == CheckRegion(source, x, y, width, height).value
    ensures r.Success? ==> r.value.image == Some(Image(width, height))
    ensures r.Success? ==> r.value.body == s.body && r.value.scaleX == s.scaleX && r.value.scaleY == s.scaleY
    ensures r.Success? && keepSize ==> r.value.width == s.width && r.value.height == s.height
    ensures r.Success? && !keepSize ==> r.value.width == width && r.value.height == height
  {
    match CheckRegion(source, x, y, width, height)
    case Some(e) => Failure(e)
    case None =>
      var s' := s.(image := Some(Image(width, height)));
      if keepSize then Success(s') else Success(s'.(width := width, height := height))
  }

  /** setImageFromSubImage(imagePath, ...): the file must decode to an image (a throwing or null
      read is an IOException); then the region checks run on it. */
  function SetImageFromSubImageFile(s: Sprite, read: ImageRead, x: int, y: int, width: int, height: int,
                                    keepSize: bool): (r: Result<Sprite, SpriteError>)
    ensures !read.Decoded? ==> r == Failure(IOError)
    ensures read.Decoded? ==> r == SetImageFromSubImage(s, Some(read.image), x, y, width, height, keepSize)
  {
    match read
    case Decoded(img) => SetImageFromSubImage(s, Some(img), x, y, width, height, keepSize)
    case _ => Failure(IOError)
  }

  /** getBounds: the position corner and the scaled integer size; a null position throws. */
  function GetBounds(s: Sprite): (b: Option<Bounds>)
    ensures b.Some? <==> s.body.position.Some?
    ensures b.Some? ==> b.value.x == s.body.position.value.x && b.value.y == s.body.position.value.y
    ensures b.Some? ==> b.value.width == Width(s) as real && b.value.height == Height(s) as real
  {
    match s.body.position
    case None => None
    case Some(p) => Some(Bounds(p.x, p.y, Width(s) as real, Height(s) as real))
  }

  /** The pixel (i, j) lies in the image. */
  predicate InImage(img: Image, i: int, j: int)
  {
    0 <= i < img.width && 0 <= j < img.height
  }

  /** The width-by-height region at (x, y) is non-empty and every one of its pixels lies in the
      source image. */
  predicate RegionInside(img: Image, x: int, y: int, width: int, height: int)
  {
    && width > 0 && height > 0
    && forall i, j :: x <= i < x + width && y <= j < y + height ==> InImage(img, i, j)
  }

  /** The three checks accept exactly the non-empty regions whose pixels all lie inside a
      non-null source. */
  lemma SubImageSucceedsIffRegionInside(s: Sprite, source: Option<Image>, x: int, y: int, width: int, height: int,
                                        keepSize: bool)
    ensures SetImageFromSubImage(s, source, x, y, width, height, keepSize).Success?
        <==> source.Some? && RegionInside(source.value, x, y, width, height)
  {
    if source.Some? && RegionInside(source.value, x, y, width, height) {
      var img := source.value;
      assert InImage(img, x, y);
      assert InImage(img, x + width - 1, y + height - 1);
    }
  }

  /** Repeating a successful extraction changes nothing more. */
  lemma SubImageIdempotent(s: Sprite, source: Option<Image>, x: int, y: int, width: int, height: int, keepSize: bool)
    requires SetImageFromSubImage(s, source, x, y, width, height, keepSize).Success?
    ensures var s1 := SetImageFromSubImage(s, source, x, y, width, height, keepSize).value;
            SetImageFromSubImage(s1, source, x, y, width, height, keepSize) == Success(s1)
  {
  }

  /** With scale 1 the scaled size is the base size. */
  lemma UnitScaleKeepsBaseSize(s: Sprite)
    requires s.scaleX == 1.0 && s.scaleY == 1.0 && IsInt32(s.width) && IsInt32(s.height)
    ensures Width(s) == s.width && Height(s) == s.height
  {
  }

  /** Scale applies after a subimage replaces the base size: scale 2 and a 32 by 32 region give
      64 by 64, while the base size stays 32 by 32. */
  lemma SubImageThenScaleExample(s: Sprite)
    requires s.scaleX == 2.0 && s.scaleY == 2.0
    ensures var r := SetImageFromSubImage(s, Some(Image(100, 100)), 0, 0, 32, 32, false);
            r.Success? && Width(r.value) == 64 && Height(r.value) == 64
            && r.value.width == 32 && r.value.height == 32
  {
  }

  /** The base size ignores the scale: a 100 by 50 image at scale 2 reports 200 by 100 (and at
      scales 2 and 0.5, 200 by 25) while the base stays 100 by 50. */
  lemma ScaledSizeExamples(s: Sprite)
    requires s.width == 100 && s.height == 50
    ensures Width(SetUniformScale(s, 2.0)) == 200 && Height(SetUniformScale(s, 2.0)) == 100
    ensures Width(SetScale(s, 2.0, 0.5)) == 200 && Height(SetScale(s, 2.0, 0.5)) == 25
    ensures SetUniformScale(s, 2.0).width == 100 && SetUniformScale(s, 2.0).height == 50
  {
  }

  /** A decoded file leaves a sprite at scale 1 whose reported size is the image's. */
  lemma FromFileReportsImageSize(img: Image, posX: int, posY: int)
    requires IsInt32(img.width) && IsInt32(img.height)
    ensures FromFile(Decoded(img), posX, posY).Success?
    ensures Width(FromFile(Decoded(img), posX, posY).value) == img.width
    ensures Height(FromFile(Decoded(img), posX, posY).value) == img.height
  {
    UnitScaleKeepsBaseSize(FromFile(Decoded(img), posX, posY).value);
  }
}

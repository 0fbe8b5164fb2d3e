/**
 * FNVTextureReader: the source texture, rectangle, readback format and readback size
 * a reader keeps; the rules SetSourceTexture applies to defaulted arguments; the
 * argument checks and copy region of a raw readback; and the CPU-side construction
 * of a packed pixel buffer from a mapped readback surface.
 */
module TextureReader {
  import opened Optional
  import opened CapturerUtils

  // ---------------------------------------------------------------- rectangles and textures

  /** FIntRect: a Min and a Max corner. */
  datatype IntRect = IntRect(min: IntPoint, max: IntPoint)

  /** FIntRect(): both corners at the origin. */
  const ZeroRect: IntRect := IntRect(ZeroPoint, ZeroPoint)

  function Width(r: IntRect): int { r.max.x - r.min.x }
  function Height(r: IntRect): int { r.max.y - r.min.y }

  /** FIntRect::Area: width times height. */
  function RectArea(r: IntRect): int { Width(r) * Height(r) }

  /** FIntRect::IsEmpty: no width and no height. */
  predicate IsEmpty(r: IntRect) { Width(r) == 0 && Height(r) == 0 }

  /** An RHI texture as the reader sees it: its size and its pixel format. */
  datatype Texture = Texture(sizeXY: IntPoint, format: PixelFormat)

  /** s holds sub starting at index i. */
  predicate OccursAt(s: string, sub: string, i: nat) {
    i + |sub| <= |s| && s[i..i + |sub|] == sub
  }

  /** s holds sub at some position, case matching exactly. */
  predicate ContainsSubstring(s: string, sub: string) {
    exists i: nat :: i <= |s| && OccursAt(s, sub, i)
  }

  /** ASCII upper-casing of one character; every other character is kept. */
  function ToUpperAscii(c: char): (u: char)
    ensures 'a' <= c <= 'z' ==> u as int == c as int - 32
    ensures !('a' <= c <= 'z') ==> u == c
    ensures !('a' <= u <= 'z')
  {
    if 'a' <= c <= 'z' then (c as int - 32) as char else c
  }

  /** A string upper-cased character by character. */
  function UpperAscii(s: string): (r: string)
    ensures |r| == |s|
    ensures forall i :: 0 <= i < |s| ==> r[i] == ToUpperAscii(s[i])
  {
    seq(|s|, i requires 0 <= i < |s| => ToUpperAscii(s[i]))
  }

  /** FString::Contains with its default case-insensitive search. */
  predicate ContainsIgnoreCase(s: string, sub: string) {
    ContainsSubstring(UpperAscii(s), UpperAscii(sub))
  }

  /** The D3D11 test of SetSourceTexture on the RHI's name. */
  predicate IsD3D11(rhiName: string) {
    ContainsIgnoreCase(rhiName, "D3D11")
  }

  /** Upper-casing distributes over concatenation. */
  lemma UpperAsciiConcat(a: string, b: string)
    ensures UpperAscii(a + b) == UpperAscii(a) + UpperAscii(b)
  {
  }

  /**
   * Any RHI name holding "D3D11" in any letter case (such as "d3d11") is recognised, and
   * then a texture format taken as R16F reads back as ShadowDepth.
   */
  lemma D3D11NameIsRecognised(prefix: string, name: string, suffix: string)
    requires UpperAscii(name) == "D3D11"
    ensures IsD3D11(prefix + name + suffix)
    ensures RemapForRhi(Some(prefix + name + suffix), R16F) == ShadowDepth
  {
    var s := prefix + name + suffix;
    UpperAsciiConcat(prefix + name, suffix);
    UpperAsciiConcat(prefix, name);
    var u := UpperAscii(s);
    assert u == UpperAscii(prefix) + "D3D11" + UpperAscii(suffix);
    assert UpperAscii("D3D11") == "D3D11";
    assert u[|prefix|..|prefix| + 5] == "D3D11";
    assert OccursAt(u, UpperAscii("D3D11"), |prefix|);
  }

  /** The lower-case name "d3d11" counts as D3D11. */
  lemma LowerCaseD3D11IsRecognised()
    ensures IsD3D11("d3d11")
  {
    D3D11NameIsRecognised("", "d3d11", "");
    assert "" + "d3d11" + "" == "d3d11";
  }

  // ---------------------------------------------------------------- SetSourceTexture rules

  /** The four settings a reader keeps. */
  datatype ReaderSettings = ReaderSettings(
    sourceTexture: Option<Texture>, sourceRect: IntRect, readbackPixelFormat: PixelFormat, readbackSize: IntPoint)

  /**
   * The format remapping applied when the format is taken from the texture and an RHI
   * (named rhiName) exists: on D3D11 the 16-bit single-channel formats become ShadowDepth,
   * and on any RHI R32_FLOAT becomes R32_UINT.
   */
  function RemapForRhi(rhiName: Option<string>, f: PixelFormat): (r: PixelFormat)
    ensures rhiName.None? ==> r == f
    ensures rhiName.Some? ==> r != R32Float
    ensures f != R16F && f != R16Uint && f != R32Float ==> r == f
  {
    if rhiName.None? then f
    else
      var f1 := if IsD3D11(rhiName.value) && (f == R16F || f == R16Uint) then ShadowDepth else f;
      if f1 == R32Float then R32Uint else f1
  }

  /**
   * SetSourceTexture: the settings it leaves, given the RHI name (None when there is no dynamic
   * RHI). The texture is always stored; with a texture, an explicit format and a non-zero size
   * are kept, and a format taken from the texture is never R32_FLOAT when there is an RHI.
   */
  function SetSourceTextureResult(rhiName: Option<string>, tex: Option<Texture>, rect: IntRect, fmt: PixelFormat, size: IntPoint): (r: ReaderSettings)
    ensures r.sourceTexture == tex
    ensures fmt != Unknown ==> r.readbackPixelFormat == fmt
    ensures size != ZeroPoint ==> r.readbackSize == size
    ensures tex.Some? && rhiName.Some? && fmt == Unknown ==> r.readbackPixelFormat != R32Float
  {
    if tex.None? then ReaderSettings(tex, rect, fmt, size)
    else
      var t := tex.value;
      ReaderSettings(
        tex,
        if IsEmpty(rect) then IntRect(ZeroPoint, t.sizeXY) else rect,
        if fmt == Unknown then RemapForRhi(rhiName, t.format) else fmt,
        if size == ZeroPoint then t.sizeXY else size)
  }

  /** Without a texture the four arguments are stored as given. */
  lemma NullTextureStoredVerbatim(rhiName: Option<string>, rect: IntRect, fmt: PixelFormat, size: IntPoint)
    ensures SetSourceTextureResult(rhiName, None, rect, fmt, size) == ReaderSettings(None, rect, fmt, size)
  {
  }

  /**
   * With a texture: a zero size becomes the texture's size and an empty rectangle the
   * whole texture; a non-zero size, a non-empty rectangle and an explicit format are kept.
   */
  lemma DefaultsResolvedFromTexture(rhiName: Option<string>, t: Texture, rect: IntRect, fmt: PixelFormat, size: IntPoint)
    ensures var r := SetSourceTextureResult(rhiName, Some(t), rect, fmt, size);
            r.sourceTexture == Some(t) &&
            (size == ZeroPoint ==> r.readbackSize == t.sizeXY) &&
            (size != ZeroPoint ==> r.readbackSize == size) &&
            (IsEmpty(rect) ==> r.sourceRect == IntRect(ZeroPoint, t.sizeXY)) &&
            (!IsEmpty(rect) ==> r.sourceRect == rect) &&
            (fmt != Unknown ==> r.readbackPixelFormat == fmt)
  {
  }

  /**
   * A format taken from the texture: kept without an RHI; on D3D11, R16F and R16_UINT
   * read back as ShadowDepth; on any RHI, R32_FLOAT reads back as R32_UINT; every other
   * format is kept.
   */
  lemma FormatTakenFromTexture(rhiName: Option<string>, t: Texture, rect: IntRect, size: IntPoint)
    ensures var f := SetSourceTextureResult(rhiName, Some(t), rect, Unknown, size).readbackPixelFormat;
            (rhiName.None? ==> f == t.format) &&
            (rhiName.Some? && IsD3D11(rhiName.value) && (t.format == R16F || t.format == R16Uint) ==>
               f == ShadowDepth) &&
            (rhiName.Some? && !IsD3D11(rhiName.value) && (t.format == R16F || t.format == R16Uint) ==>
               f == t.format) &&
            (rhiName.Some? && t.format == R32Float ==> f == R32Uint) &&
            (t.format !in {R16F, R16Uint, R32Float} ==> f == t.format)
  {
  }

  /** With an RHI present, a format taken from the texture never reads back as R32_FLOAT. */
  lemma NoFloatReadbackWithRhi(name: string, t: Texture, rect: IntRect, size: IntPoint)
    ensures SetSourceTextureResult(Some(name), Some(t), rect, Unknown, size).readbackPixelFormat != R32Float
  {
  }

  /** Setting the resolved settings once more changes nothing. */
  lemma SetSourceTextureIdempotent(rhiName: Option<string>, tex: Option<Texture>, rect: IntRect, fmt: PixelFormat, size: IntPoint)
    ensures var r := SetSourceTextureResult(rhiName, tex, rect, fmt, size);
            SetSourceTextureResult(rhiName, r.sourceTexture, r.sourceRect, r.readbackPixelFormat, r.readbackSize) == r
  {
    if tex.Some? {
      var t := tex.value;
      var r := SetSourceTextureResult(rhiName, tex, rect, fmt, size);
      if fmt == Unknown && r.readbackPixelFormat == Unknown {
        assert t.format == Unknown;
      }
    }
  }

  // ---------------------------------------------------------------- copy region and raw readback

  /** FIntVector. */
  datatype IntVector = IntVector(x: int, y: int, z: int)

  /** FRHICopyTextureInfo, restricted to what CopyTexture2d sets. */
  datatype CopyTextureInfo = CopyTextureInfo(sourcePosition: IntVector, destPosition: IntVector, size: IntVector)

  /** CopyTexture2d: the copy it issues, or none when either texture is null. */
  function CopyTexture2d(source: Option<Texture>, sourceRect: IntRect, target: Option<Texture>, targetRect: IntRect): (c: Option<CopyTextureInfo>)
    ensures c.Some? <==> source.Some? && target.Some?
    ensures c.Some? ==>
              c.value.sourcePosition == IntVector(sourceRect.min.x, sourceRect.min.y, 0) &&
              c.value.destPosition == IntVector(targetRect.min.x, targetRect.min.y, 0) &&
              c.value.size == IntVector(Width(targetRect), Height(targetRect), 1)
  {
    if source.None? || target.None? then None
    else Some(CopyTextureInfo(
      IntVector(sourceRect.min.x, sourceRect.min.y, 0),
      IntVector(targetRect.min.x, targetRect.min.y, 0),
      IntVector(Width(targetRect), Height(targetRect), 1)))
  }

  /** The work ReadPixelsRaw enqueues: the CPU-readable texture it creates and the copy into it. */
  datatype ReadbackPlan = ReadbackPlan(readbackTexture: Texture, copy: Option<CopyTextureInfo>)

  /** ReadPixelsRaw's argument check: a texture, a non-zero rectangle area, a non-zero target size, a callback. */
  predicate ValidRawReadArguments(tex: Option<Texture>, rect: IntRect, targetSize: IntPoint, hasCallback: bool) {
    tex.Some? && RectArea(rect) != 0 && targetSize != ZeroPoint && hasCallback
  }

  /** ReadPixelsRaw: no work for invalid arguments; otherwise the readback texture and the copy of rect into all of it. */
  function ReadPixelsRaw(tex: Option<Texture>, rect: IntRect, fmt: PixelFormat, targetSize: IntPoint, ignoreAlpha: bool, hasCallback: bool): (p: Option<ReadbackPlan>)
    ensures p.Some? <==> ValidRawReadArguments(tex, rect, targetSize, hasCallback)
    ensures p.Some? ==> p.value.readbackTexture == Texture(targetSize, fmt) && p.value.copy.Some?
  {
    if !ValidRawReadArguments(tex, rect, targetSize, hasCallback) then None
    else
      var readback := Texture(targetSize, fmt);
      Some(ReadbackPlan(readback, CopyTexture2d(tex, rect, Some(readback), IntRect(ZeroPoint, targetSize))))
  }

  /**
   * ReadPixelsRaw enqueues work exactly when its arguments are valid; then the readback
   * texture has the target size and format, and the copy reads from the rectangle's
   * corner into the origin over the whole target size.
   */
  lemma ReadPixelsRawSpec(tex: Option<Texture>, rect: IntRect, fmt: PixelFormat, targetSize: IntPoint, ignoreAlpha: bool, hasCallback: bool)
    ensures ReadPixelsRaw(tex, rect, fmt, targetSize, ignoreAlpha, hasCallback).Some? <==>
            tex.Some? && RectArea(rect) != 0 && targetSize != ZeroPoint && hasCallback
    ensures var p := ReadPixelsRaw(tex, rect, fmt, targetSize, ignoreAlpha, hasCallback);
            p.Some? ==>
              p.value.readbackTexture == Texture(targetSize, fmt) &&
              p.value.copy == Some(CopyTextureInfo(IntVector(rect.min.x, rect.min.y, 0), IntVector(0, 0, 0),
                                                   IntVector(targetSize.x, targetSize.y, 1)))
  {
  }

  /** The alpha flag reaches only the copy's unused overwrite-alpha argument: the plan is the same either way. */
  lemma ReadPixelsRawIgnoresAlphaFlag(tex: Option<Texture>, rect: IntRect, fmt: PixelFormat, targetSize: IntPoint, hasCallback: bool)
    ensures ReadPixelsRaw(tex, rect, fmt, targetSize, true, hasCallback) ==
            ReadPixelsRaw(tex, rect, fmt, targetSize, false, hasCallback)
  {
  }

  // ---------------------------------------------------------------- pixel buffer

  /** FMath::Min on int32. */
  function MinInt(a: int, b: int): int { if a <= b then a else b }

  /** Row r of the packed buffer dst holds the rowBytes bytes of source row r (srcRowBytes apart in src). */
  predicate RowCopied(dst: seq<byte>, src: seq<byte>, r: nat, rowBytes: nat, srcRowBytes: nat) {
    (r + 1) * rowBytes <= |dst| && r * srcRowBytes + rowBytes <= |src| &&
    dst[r * rowBytes..(r + 1) * rowBytes] == src[r * srcRowBytes..r * srcRowBytes + rowBytes]
  }

  /** FMemory::Memcpy of n bytes of src from srcOff into dst at dstOff. */
  method Memcpy(dst: array<byte>, dstOff: nat, src: seq<byte>, srcOff: nat, n: nat)
    requires dstOff + n <= dst.Length && srcOff + n <= |src|
    modifies dst
    ensures dst[..dstOff] == old(dst[..dstOff])
    ensures dst[dstOff..dstOff + n] == src[srcOff..srcOff + n]
    ensures dst[dstOff + n..] == old(dst[dstOff + n..])
  {
    forall k | 0 <= k < n {
      dst[dstOff + k] := src[srcOff + k];
    }
  }

  lemma MulLe(a: nat, b: nat, k: nat)
    requires a <= b
    ensures a * k <= b * k
  {
  }

  /** The packed rows fit the grown region: minHeight rows of minWidth pixels are at most target width x height pixels. */
  lemma RowsFitBuffer(minHeight: nat, minWidth: nat, bs: nat, tx: nat, ty: nat)
    requires minHeight <= ty && minWidth <= tx
    ensures minHeight * (minWidth * bs) <= bs * (tx * ty)
  {
    MulLe(minHeight, ty, minWidth * bs);
    MulLe(minWidth, tx, bs);
    MulLe(minWidth * bs, tx * bs, ty);
    assert ty * (tx * bs) == bs * (tx * ty);
  }

  /** Every source row read lies inside a full ix x iy surface. */
  lemma RowsFitSource(minHeight: nat, minWidth: nat, bs: nat, ix: nat, iy: nat)
    requires 0 < minHeight <= iy && minWidth <= ix
    ensures (minHeight - 1) * (ix * bs) + minWidth * bs <= ix * iy * bs
  {
    MulLe(minWidth, ix, bs);
    MulLe(minHeight, iy, ix * bs);
    assert minHeight * (ix * bs) == (minHeight - 1) * (ix * bs) + ix * bs;
    assert iy * (ix * bs) == ix * iy * bs;
  }

  /** A row wholly before the first changed byte is still copied. */
  lemma RowUntouched(before: seq<byte>, after: seq<byte>, src: seq<byte>, r: nat, rowBytes: nat, srcRowBytes: nat, from: nat)
    requires |before| == |after| && from <= |before|
    requires (r + 1) * rowBytes <= from
    requires after[..from] == before[..from]
    requires RowCopied(before, src, r, rowBytes, srcRowBytes)
    ensures RowCopied(after, src, r, rowBytes, srcRowBytes)
  {
    assert r * rowBytes <= (r + 1) * rowBytes;
    assert after[r * rowBytes..(r + 1) * rowBytes] == after[..from][r * rowBytes..(r + 1) * rowBytes];
    assert before[r * rowBytes..(r + 1) * rowBytes] == before[..from][r * rowBytes..(r + 1) * rowBytes];
  }

  /** A suffix past the last changed byte is unchanged. */
  lemma SuffixUntouched(before: seq<byte>, after: seq<byte>, cut: nat, start: nat)
    requires |before| == |after| && cut <= start <= |before|
    requires after[cut..] == before[cut..]
    ensures after[start..] == before[start..]
  {
    assert after[start..] == after[cut..][start - cut..];
    assert before[start..] == before[cut..][start - cut..];
  }

  /**
   * The row loop of BuildPixelData: rows memcpys of rowBytes bytes, the source offset
   * advancing by srcRowBytes and the destination by rowBytes; nothing at or past limit changes.
   */
  method CopyRows(dst: array<byte>, src: seq<byte>, rows: nat, rowBytes: nat, srcRowBytes: nat, limit: nat)
    requires rows * rowBytes <= limit <= dst.Length
    requires rows > 0 ==> (rows - 1) * srcRowBytes + rowBytes <= |src|
    modifies dst
    ensures dst[limit..] == old(dst[limit..])
    ensures forall r: nat :: r < rows ==> RowCopied(dst[..], src, r, rowBytes, srcRowBytes)
  {
    var srcOffset := 0;
    var dest := 0;
    var row := 0;
    while row < rows
      invariant 0 <= row <= rows
      invariant srcOffset == row * srcRowBytes && dest == row * rowBytes
      invariant dst[limit..] == old(dst[limit..])
      invariant forall r: nat :: r < row ==> RowCopied(dst[..], src, r, rowBytes, srcRowBytes)
    {
      MulLe(row + 1, rows, rowBytes);
      MulLe(row, rows - 1, srcRowBytes);
      ghost var before := dst[..];
      Memcpy(dst, dest, src, srcOffset, rowBytes);
      forall r: nat | r < row
        ensures RowCopied(dst[..], src, r, rowBytes, srcRowBytes)
      {
        MulLe(r + 1, row, rowBytes);
        assert dst[..][..dest] == dst[..dest];
        RowUntouched(before, dst[..], src, r, rowBytes, srcRowBytes, dest);
      }
      SuffixUntouched(before, dst[..], dest + rowBytes, limit);
      assert RowCopied(dst[..], src, row, rowBytes, srcRowBytes);
      srcOffset := srcOffset + srcRowBytes;
      dest := dest + rowBytes;
      row := row + 1;
    }
  }

  /**
   * BuildPixelData: with no raw buffer, nothing changes. Otherwise the pixel size and format
   * are set, the buffer grows at its front by pixelByteSize x target width x target height
   * bytes with the old bytes moved behind them, the row stride is the copied row width in
   * bytes, and each of the min(target height, image height) rows holds the first copied
   * bytes of the matching image row.
   */
  method BuildPixelData(out: TexturePixelData, raw: Option<seq<byte>>, fmt: PixelFormat, pixelByteSize: nat,
                        imageSize: IntPoint, targetSize: IntPoint)
    requires imageSize.x >= 0 && imageSize.y >= 0 && targetSize.x >= 0 && targetSize.y >= 0
    requires raw.Some? ==> |raw.value| >= imageSize.x * imageSize.y * pixelByteSize
    modifies out
    ensures raw.None? ==> unchanged(out)
    ensures raw.Some? ==>
              out.pixelSize == targetSize && out.pixelFormat == fmt &&
              out.rowStride == MinInt(targetSize.x, imageSize.x) * pixelByteSize &&
              fresh(out.pixelData)
    ensures raw.Some? ==>
              var grownBy := pixelByteSize * (targetSize.x * targetSize.y);
              out.pixelData.Length == grownBy + old(out.pixelData.Length) &&
              out.pixelData[grownBy..] == old(out.pixelData[..])
    ensures raw.Some? ==>
              MinInt(targetSize.y, imageSize.y) * out.rowStride <= pixelByteSize * (targetSize.x * targetSize.y)
    ensures raw.Some? ==>
              forall r: nat :: r < MinInt(targetSize.y, imageSize.y) ==>
                RowCopied(out.pixelData[..], raw.value, r, out.rowStride, imageSize.x * pixelByteSize)
  {
    if raw.None? {
      return;
    }
    var src := raw.value;
    var pixelCount: nat := targetSize.x * targetSize.y;
    out.pixelSize := targetSize;
    out.pixelFormat := fmt;

    // InsertUninitialized(0, PixelBufferSize): the old bytes move behind the new ones.
    var bufferSize := pixelByteSize * pixelCount;
    var oldData := out.pixelData;
    var grown := new byte[bufferSize + oldData.Length];
    forall k | 0 <= k < oldData.Length {
      grown[bufferSize + k] := oldData[k];
    }
    assert grown[bufferSize..] == oldData[..];
    out.pixelData := grown;

    var minWidth: nat := MinInt(targetSize.x, imageSize.x);
    var minHeight: nat := MinInt(targetSize.y, imageSize.y);
    var targetWidthBytes := minWidth * pixelByteSize;
    var sourceWidthBytes := imageSize.x * pixelByteSize;
    out.rowStride := targetWidthBytes;

    RowsFitBuffer(minHeight, minWidth, pixelByteSize, targetSize.x, targetSize.y);
    if minHeight > 0 {
      RowsFitSource(minHeight, minWidth, pixelByteSize, imageSize.x, imageSize.y);
    }
    CopyRows(grown, src, minHeight, targetWidthBytes, sourceWidthBytes, bufferSize);
  }

  /** BuildPixelData's by-value overload: a fresh record, empty when there is no raw buffer. */
  method BuildNewPixelData(raw: Option<seq<byte>>, fmt: PixelFormat, pixelByteSize: nat, imageSize: IntPoint, targetSize: IntPoint)
    returns (data: TexturePixelData)
    requires imageSize.x >= 0 && imageSize.y >= 0 && targetSize.x >= 0 && targetSize.y >= 0
    requires raw.Some? ==> |raw.value| >= imageSize.x * imageSize.y * pixelByteSize
    ensures fresh(data) && fresh(data.pixelData)
    ensures raw.None? ==> data.pixelData.Length == 0
    ensures raw.Some? ==>
              data.pixelSize == targetSize && data.pixelFormat == fmt &&
              data.rowStride == MinInt(targetSize.x, imageSize.x) * pixelByteSize &&
              data.pixelData.Length == pixelByteSize * (targetSize.x * targetSize.y)
    ensures raw.Some? ==>
              forall r: nat :: r < MinInt(targetSize.y, imageSize.y) ==>
                RowCopied(data.pixelData[..], raw.value, r, data.rowStride, imageSize.x * pixelByteSize)
  {
    data := new TexturePixelData();
    BuildPixelData(data, raw, fmt, pixelByteSize, imageSize, targetSize);
  }

  /** The number of bytes BuildPixelData inserts: pixelByteSize bytes for each target pixel. */
  function PixelBufferSize(pixelByteSize: nat, targetSize: IntPoint): nat
    requires targetSize.x >= 0 && targetSize.y >= 0
  {
    var pixelCount: nat := targetSize.x * targetSize.y;
    pixelByteSize * pixelCount
  }

  /** A mapped staging surface: its bytes and its size in pixels. */
  datatype MappedSurface = MappedSurface(bytes: seq<byte>, pixelSize: IntPoint)

  /** The surface holds a full image of its size at pixelByteSize bytes a pixel. */
  predicate SurfaceIsComplete(m: MappedSurface, pixelByteSize: nat) {
    m.pixelSize.x >= 0 && m.pixelSize.y >= 0 && |m.bytes| >= m.pixelSize.x * m.pixelSize.y * pixelByteSize
  }

  class TextureReader {
    var sourceTexture: Option<Texture>
    var sourceRect: IntRect
    var readbackPixelFormat: PixelFormat
    var readbackSize: IntPoint

    /** The four settings together. */
    function Settings(): ReaderSettings
      reads this
    {
      ReaderSettings(sourceTexture, sourceRect, readbackPixelFormat, readbackSize)
    }

    /** A new reader has no source texture. */
    constructor()
      ensures sourceTexture.None?
    {
      sourceTexture := None;
      sourceRect := ZeroRect;
      readbackPixelFormat := Unknown;
      readbackSize := ZeroPoint;
    }

    /** operator=: the four settings of the other reader, and nothing else. */
    method Assign(other: TextureReader)
      modifies this
      ensures Settings() == old(other.Settings())
    {
      var t, r, f, sz := other.sourceTexture, other.sourceRect, other.readbackPixelFormat, other.readbackSize;
      sourceTexture := t;
      sourceRect := r;
      readbackPixelFormat := f;
      readbackSize := sz;
    }

    /**
     * SetSourceTexture: stores the arguments, then, when there is a texture, fills a zero
     * size, an unknown format (remapped for the RHI) and an empty rectangle from it.
     */
    method SetSourceTexture(rhiName: Option<string>, tex: Option<Texture>, rect: IntRect, fmt: PixelFormat, size: IntPoint)
      modifies this
      ensures Settings() == SetSourceTextureResult(rhiName, tex, rect, fmt, size)
    {
      sourceTexture := tex;
      sourceRect := rect;
      readbackPixelFormat := fmt;
      readbackSize := size;
      if sourceTexture.Some? {
        var t := sourceTexture.value;
        if readbackSize == ZeroPoint {
          readbackSize := t.sizeXY;
        }
        if readbackPixelFormat == Unknown {
          readbackPixelFormat := t.format;
          if rhiName.Some? {
            if IsD3D11(rhiName.value) {
              if readbackPixelFormat == R16F || readbackPixelFormat == R16Uint {
                readbackPixelFormat := ShadowDepth;
              }
            }
            if readbackPixelFormat == R32Float {
              readbackPixelFormat := R32Uint;
            }
          }
        }
        if IsEmpty(sourceRect) {
          sourceRect := IntRect(ZeroPoint, t.sizeXY);
        }
      }
    }

    /**
     * ReadPixelsData into a record: true exactly when a source texture is set. The
     * render-thread readback is the surface argument (None when mapping gave no buffer);
     * a mapped surface is built into out at the readback format and size.
     */
    method ReadPixelsData(out: TexturePixelData, surface: Option<MappedSurface>, pixelByteSize: nat) returns (ok: bool)
      requires surface.Some? ==> SurfaceIsComplete(surface.value, pixelByteSize)
      requires readbackSize.x >= 0 && readbackSize.y >= 0
      modifies out
      ensures ok <==> sourceTexture.Some?
      ensures !ok || surface.None? ==> unchanged(out)
      ensures ok && surface.Some? ==>
                out.pixelSize == readbackSize && out.pixelFormat == readbackPixelFormat &&
                out.rowStride == MinInt(readbackSize.x, surface.value.pixelSize.x) * pixelByteSize
      ensures ok && surface.Some? ==>
                forall r: nat :: r < MinInt(readbackSize.y, surface.value.pixelSize.y) ==>
                  RowCopied(out.pixelData[..], surface.value.bytes, r, out.rowStride, surface.value.pixelSize.x * pixelByteSize)
      ensures ok && surface.Some? ==>
                out.pixelData.Length == PixelBufferSize(pixelByteSize, readbackSize) + old(out.pixelData.Length) &&
                out.pixelData[PixelBufferSize(pixelByteSize, readbackSize)..] == old(out.pixelData[..])
    {
      ok := false;
      if sourceTexture.Some? {
        if surface.Some? {
          BuildPixelData(out, Some(surface.value.bytes), readbackPixelFormat, pixelByteSize, surface.value.pixelSize, readbackSize);
        }
        ok := true;
      }
    }

    /** ReadPixelsData with new settings: SetSourceTexture, then a read. */
    method ReadPixelsDataWith(out: TexturePixelData, surface: Option<MappedSurface>, pixelByteSize: nat,
                              rhiName: Option<string>, tex: Option<Texture>, rect: IntRect, fmt: PixelFormat, size: IntPoint)
      returns (ok: bool)
      requires surface.Some? ==> SurfaceIsComplete(surface.value, pixelByteSize)
      requires size.x >= 0 && size.y >= 0
      requires tex.Some? ==> tex.value.sizeXY.x >= 0 && tex.value.sizeXY.y >= 0
      modifies this, out
      ensures Settings() == SetSourceTextureResult(rhiName, tex, rect, fmt, size)
      ensures ok <==> tex.Some?
      ensures !ok || surface.None? ==> unchanged(out)
      ensures ok && surface.Some? ==>
                out.pixelSize == readbackSize && out.pixelFormat == readbackPixelFormat &&
                out.rowStride == MinInt(readbackSize.x, surface.value.pixelSize.x) * pixelByteSize
      ensures ok && surface.Some? ==>
                forall r: nat :: r < MinInt(readbackSize.y, surface.value.pixelSize.y) ==>
                  RowCopied(out.pixelData[..], surface.value.bytes, r, out.rowStride, surface.value.pixelSize.x * pixelByteSize)
      ensures ok && surface.Some? ==>
                out.pixelData.Length == PixelBufferSize(pixelByteSize, readbackSize) + old(out.pixelData.Length) &&
                out.pixelData[PixelBufferSize(pixelByteSize, readbackSize)..] == old(out.pixelData[..])
    {
      SetSourceTexture(rhiName, tex, rect, fmt, size);
      ok := ReadPixelsData(out, surface, pixelByteSize);
    }

    /**
     * ReadPixelsData with a callback: false without a callback or a source texture;
     * otherwise the result of ReadPixelsRaw on the reader's settings, whose plan it returns.
     */
    method ReadPixelsDataAsync(hasCallback: bool, ignoreAlpha: bool) returns (ok: bool, plan: Option<ReadbackPlan>)
      ensures plan == (if hasCallback && sourceTexture.Some?
                       then ReadPixelsRaw(sourceTexture, sourceRect, readbackPixelFormat, readbackSize, ignoreAlpha, true)
                       else None)
      ensures ok <==> plan.Some?
      ensures ok <==> hasCallback && sourceTexture.Some? && RectArea(sourceRect) != 0 && readbackSize != ZeroPoint
    {
      plan := None;
      if hasCallback && sourceTexture.Some? {
        plan := ReadPixelsRaw(sourceTexture, sourceRect, readbackPixelFormat, readbackSize, ignoreAlpha, true);
      }
      ok := plan.Some?;
    }

    /** ReadPixelsData with a callback and new settings: SetSourceTexture, then the callback read. */
    method ReadPixelsDataAsyncWith(hasCallback: bool, ignoreAlpha: bool,
                                   rhiName: Option<string>, tex: Option<Texture>, rect: IntRect, fmt: PixelFormat, size: IntPoint)
      returns (ok: bool, plan: Option<ReadbackPlan>)
      modifies this
      ensures Settings() == SetSourceTextureResult(rhiName, tex, rect, fmt, size)
      ensures plan == (if hasCallback && tex.Some?
                       then ReadPixelsRaw(tex, sourceRect, readbackPixelFormat, readbackSize, ignoreAlpha, true)
                       else None)
      ensures ok <==> plan.Some?
      ensures ok <==> hasCallback && tex.Some? && RectArea(sourceRect) != 0 && readbackSize != ZeroPoint
    {
      SetSourceTexture(rhiName, tex, rect, fmt, size);
      ok, plan := ReadPixelsDataAsync(hasCallback, ignoreAlpha);
    }
  }
}

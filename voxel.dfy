/** The voxel swarm of VoxelFromGLB: every mesh of a loaded scene becomes one
    oriented box ("proxy"), and every frame a spring/damper/repulsion
    integrator moves the boxes, writing only the position and velocity
    buffers. The build fills flat buffers: three entries per proxy for
    position, velocity, target and scale, four for the quaternion. */
module Voxel {
  import opened Common

  datatype Vec3 = Vec3(x: real, y: real, z: real)
  datatype Quat = Quat(x: real, y: real, z: real, w: real)
  datatype Box3 = Box3(min: Vec3, max: Vec3)
  datatype Rgb = Rgb(r: real, g: real, b: real)

  /** An affine world matrix (a three.js Matrix4 whose last row is 0 0 0 1):
      three basis columns and a translation. */
  datatype Affine = Affine(c0: Vec3, c1: Vec3, c2: Vec3, t: Vec3)

  /** What drawing a texture image into the 8x8 canvas produced: its RGBA
      bytes, or an exception. */
  datatype ImageSample = Drawn(rgba: seq<int>) | Unreadable

  /** The part of a material that colour resolution looks at: `.color`, and
      the image of `.map` when both the map and its image exist. */
  datatype Material = Material(color: Option<Rgb>, mapImage: Option<ImageSample>)

  /** `o.material`: one material (possibly missing) or an array of them. */
  datatype MaterialSlot = Single(material: Option<Material>) | Multi(materials: seq<Option<Material>>)

  /** One object of the traversed scene, with its world matrix and the
      rotation and scale that decomposing that matrix yields. */
  datatype SceneNode = SceneNode(
    isMesh: bool,
    geometry: Option<Box3>,
    matrixWorld: Affine,
    worldQuat: Quat,
    worldScale: Vec3,
    material: MaterialSlot)

  /** Where a proxy's colour came from: the material's `.color`, the
      (already linearised) average of its texture, or nowhere. */
  datatype ColorChoice = FlatColor(rgb: Rgb) | TextureAverage(rgb: Rgb) | NoColor

  datatype Proxy = Proxy(center: Vec3, quat: Quat, size: Vec3, color: ColorChoice)

  /** The argument of `onBounds`. */
  datatype BoundsReport = BoundsReport(minY: real, maxY: real, height: real)

  datatype Motion = Motion(pos: Vec3, vel: Vec3)

  /** The component's props that drive the integrator. */
  datatype Physics = Physics(spring: real, damping: real, repel: real, hoverRadius: real)

  const MinSize: real := 0.000001
  const MinDist: real := 0.000001
  const MinDt: real := 1.0 / 240.0
  const MaxDt: real := 1.0 / 30.0
  const JitterSpan: real := 0.02
  const Zero: Vec3 := Vec3(0.0, 0.0, 0.0)

  /* ---------------- vector arithmetic ---------------- */

  function Add(a: Vec3, b: Vec3): Vec3 { Vec3(a.x + b.x, a.y + b.y, a.z + b.z) }
  function Sub(a: Vec3, b: Vec3): Vec3 { Vec3(a.x - b.x, a.y - b.y, a.z - b.z) }
  function Scale(s: real, a: Vec3): Vec3 { Vec3(s * a.x, s * a.y, s * a.z) }
  function Dot(a: Vec3, b: Vec3): real { a.x * b.x + a.y * b.y + a.z * b.z }
  predicate Le(a: Vec3, b: Vec3) { a.x <= b.x && a.y <= b.y && a.z <= b.z }

  /** Matrix4.applyMatrix4 on a point, for an affine matrix. */
  function Apply(m: Affine, v: Vec3): Vec3
  {
    Add(Add(Add(Scale(v.x, m.c0), Scale(v.y, m.c1)), Scale(v.z, m.c2)), m.t)
  }

  /* ---------------- proxy extraction ---------------- */

  /** Only meshes that carry a geometry yield a proxy. */
  predicate IsProxySource(o: SceneNode)
  {
    o.isMesh && o.geometry.Some?
  }

  /** The midpoint of a geometry bounding box, axis by axis. */
  function LocalCenter(bb: Box3): (c: Vec3)
    ensures c.x - bb.min.x == bb.max.x - c.x
    ensures c.y - bb.min.y == bb.max.y - c.y
    ensures c.z - bb.min.z == bb.max.z - c.z
    ensures Le(bb.min, bb.max) ==> Le(bb.min, c) && Le(c, bb.max)
  {
    Vec3((bb.min.x + bb.max.x) * 0.5, (bb.min.y + bb.max.y) * 0.5, (bb.min.z + bb.max.z) * 0.5)
  }

  /** The unrotated world size of one axis: extent x shrink x |scale|,
      floored at MinSize. */
  function AxisSize(lo: real, hi: real, shrink: real, scale: real): (s: real)
    ensures s >= MinSize
    ensures s >= (hi - lo) * shrink * Abs(scale)
    ensures s == MinSize || s == (hi - lo) * shrink * Abs(scale)
  {
    Max((hi - lo) * shrink * Abs(scale), MinSize)
  }

  function WorldSize(bb: Box3, shrink: real, scale: Vec3): Vec3
  {
    Vec3(AxisSize(bb.min.x, bb.max.x, shrink, scale.x),
         AxisSize(bb.min.y, bb.max.y, shrink, scale.y),
         AxisSize(bb.min.z, bb.max.z, shrink, scale.z))
  }

  /** `Array.isArray(o.material) ? o.material[0] : o.material` */
  function FirstMaterial(slot: MaterialSlot): Option<Material>
  {
    match slot
    case Single(m) => m
    case Multi(ms) => if |ms| > 0 then ms[0] else None
  }

  /** Sum of one channel (offset 0, 1 or 2) over the RGBA pixels, reading
      every fourth entry from `from` on. */
  function ChannelSum(rgba: seq<int>, from: nat, channel: nat): int
    requires channel < 4 && |rgba| % 4 == 0 && from % 4 == 0
    decreases |rgba| - from
  {
    if from >= |rgba| then 0 else rgba[from + channel] + ChannelSum(rgba, from + 4, channel)
  }

  /** The sRGB-to-linear transfer of three.js Color.convertSRGBToLinear; the
      power segment (x^2.4) is a parameter. */
  function SrgbToLinearChannel(c: real, pow24: real -> real): real
  {
    if c < 0.04045 then c * 0.0773993808 else pow24(c * 0.9478672986 + 0.0521327014)
  }

  function SrgbToLinear(c: Rgb, pow24: real -> real): Rgb
  {
    Rgb(SrgbToLinearChannel(c.r, pow24), SrgbToLinearChannel(c.g, pow24), SrgbToLinearChannel(c.b, pow24))
  }

  const SampleSide: nat := 8
  const SamplePixels: nat := SampleSide * SampleSide

  /** The channel averages of an 8x8 RGBA sample, before linearisation. */
  function AverageColor(rgba: seq<int>): Rgb
    requires |rgba| == 4 * SamplePixels
  {
    var n := (255 * SamplePixels) as real;
    Rgb(ChannelSum(rgba, 0, 0) as real / n, ChannelSum(rgba, 0, 1) as real / n, ChannelSum(rgba, 0, 2) as real / n)
  }

  /** What sampleTextureAverage returns: the linearised average, or null
      when drawing the image threw. */
  function TextureColor(img: ImageSample, pow24: real -> real): Option<Rgb>
  {
    match img
    case Drawn(rgba) => if |rgba| == 4 * SamplePixels then Some(SrgbToLinear(AverageColor(rgba), pow24)) else None
    case Unreadable => None
  }

  /** Colour choice: with the flag on, the first material's `.color`, else
      its texture average, else nothing; with the flag off, nothing. */
  function ColorOf(useGLBColors: bool, slot: MaterialSlot, pow24: real -> real): (c: ColorChoice)
    ensures !useGLBColors ==> c == NoColor
    ensures c.FlatColor? ==> FirstMaterial(slot).Some? && FirstMaterial(slot).value.color == Some(c.rgb)
    ensures c.TextureAverage? ==> FirstMaterial(slot).Some? && FirstMaterial(slot).value.color.None?
  {
    if !useGLBColors then NoColor
    else match FirstMaterial(slot)
      case None => NoColor
      case Some(mat) =>
        if mat.color.Some? then FlatColor(mat.color.value)
        else if mat.mapImage.Some? then
          (match TextureColor(mat.mapImage.value, pow24)
           case Some(avg) => TextureAverage(avg)
           case None => NoColor)
        else NoColor
  }

  function ProxyOf(o: SceneNode, shrink: real, useGLBColors: bool, pow24: real -> real): Proxy
    requires IsProxySource(o)
  {
    var bb := o.geometry.value;
    Proxy(Apply(o.matrixWorld, LocalCenter(bb)), o.worldQuat, WorldSize(bb, shrink, o.worldScale),
          ColorOf(useGLBColors, o.material, pow24))
  }

  /** The proxies of a scene in traversal order. */
  function Extract(scene: seq<SceneNode>, shrink: real, useGLBColors: bool, pow24: real -> real): (ps: seq<Proxy>)
    ensures |ps| <= |scene|
  {
    if scene == [] then []
    else
      (if IsProxySource(scene[0]) then [ProxyOf(scene[0], shrink, useGLBColors, pow24)] else [])
      + Extract(scene[1..], shrink, useGLBColors, pow24)
  }

  /** No proxy comes out exactly when no object of the scene is a mesh with
      geometry. */
  lemma {:induction false} ExtractEmptyIff(scene: seq<SceneNode>, shrink: real, useGLBColors: bool, pow24: real -> real)
    ensures Extract(scene, shrink, useGLBColors, pow24) == [] <==> forall o :: o in scene ==> !IsProxySource(o)
  {
    if scene != [] {
      ExtractEmptyIff(scene[1..], shrink, useGLBColors, pow24);
      assert forall o :: o in scene <==> o == scene[0] || o in scene[1..];
    }
  }

  /** Every extracted proxy has each size component at least MinSize. */
  lemma {:induction false} ExtractSizesAtLeastMin(scene: seq<SceneNode>, shrink: real, useGLBColors: bool, pow24: real -> real)
    ensures forall p :: p in Extract(scene, shrink, useGLBColors, pow24) ==>
      p.size.x >= MinSize && p.size.y >= MinSize && p.size.z >= MinSize
  {
    if scene != [] {
      ExtractSizesAtLeastMin(scene[1..], shrink, useGLBColors, pow24);
    }
  }

  /** With the colour flag off every proxy falls back. */
  lemma {:induction false} ExtractWithoutColors(scene: seq<SceneNode>, shrink: real, pow24: real -> real)
    ensures forall p :: p in Extract(scene, shrink, false, pow24) ==> p.color == NoColor
  {
    if scene != [] {
      ExtractWithoutColors(scene[1..], shrink, pow24);
    }
  }

  /* ---------------- global bounds and re-centring ---------------- */

  /** Box3.expandByPoint, with None for the empty box. */
  function ExpandByPoint(b: Option<Box3>, p: Vec3): (r: Box3)
    ensures Le(r.min, p) && Le(p, r.max)
    ensures b.Some? ==> Le(r.min, b.value.min) && Le(b.value.max, r.max)
  {
    match b
    case None => Box3(p, p)
    case Some(bx) =>
      Box3(Vec3(Min(bx.min.x, p.x), Min(bx.min.y, p.y), Min(bx.min.z, p.z)),
           Vec3(Max(bx.max.x, p.x), Max(bx.max.y, p.y), Max(bx.max.z, p.z)))
  }

  function Half(p: Proxy): Vec3 { Scale(0.5, p.size) }

  /** The approximate world bounds: each proxy's centre -/+ half its size,
      folded into the box in traversal order. */
  function Enclose(acc: Option<Box3>, ps: seq<Proxy>): Option<Box3>
    decreases |ps|
  {
    if ps == [] then acc
    else
      var b1 := ExpandByPoint(acc, Sub(ps[0].center, Half(ps[0])));
      Enclose(Some(ExpandByPoint(Some(b1), Add(ps[0].center, Half(ps[0])))), ps[1..])
  }

  predicate Encloses(b: Box3, p: Proxy)
  {
    Le(b.min, Sub(p.center, Half(p))) && Le(Add(p.center, Half(p)), b.max)
  }

  predicate Ordered(b: Box3) { Le(b.min, b.max) }

  lemma {:induction false} EncloseContains(acc: Option<Box3>, ps: seq<Proxy>)
    requires acc.Some? ==> Ordered(acc.value)
    ensures acc.Some? || ps != [] ==> Enclose(acc, ps).Some?
    ensures Enclose(acc, ps).Some? ==> Ordered(Enclose(acc, ps).value)
    ensures acc.Some? ==> Le(Enclose(acc, ps).value.min, acc.value.min) && Le(acc.value.max, Enclose(acc, ps).value.max)
    ensures forall i :: 0 <= i < |ps| ==> Encloses(Enclose(acc, ps).value, ps[i])
    decreases |ps|
  {
    if ps != [] {
      var b1 := ExpandByPoint(acc, Sub(ps[0].center, Half(ps[0])));
      var b2 := ExpandByPoint(Some(b1), Add(ps[0].center, Half(ps[0])));
      EncloseContains(Some(b2), ps[1..]);
      var r := Enclose(Some(b2), ps[1..]).value;
      assert Encloses(r, ps[0]);
      forall i | 1 <= i < |ps| ensures Encloses(r, ps[i]) {
        assert ps[i] == ps[1..][i - 1];
      }
    }
  }

  function BoxCenter(b: Box3): Vec3 { Scale(0.5, Add(b.min, b.max)) }

  /** The bounds reported to `onBounds`, relative to the global centre. */
  function ReportOf(b: Box3): (r: BoundsReport)
    requires Ordered(b)
    ensures r.minY <= 0.0 <= r.maxY
    ensures r.height == r.maxY - r.minY && r.height == b.max.y - b.min.y
  {
    var c := BoxCenter(b);
    var minY := b.min.y - c.y;
    var maxY := b.max.y - c.y;
    BoundsReport(minY, maxY, maxY - minY)
  }

  /** Every re-centred target lies inside the re-centred bounds: the rest
      pose of the swarm is centred on the origin. */
  lemma TargetsInsideRecentredBounds(ps: seq<Proxy>, i: nat)
    requires i < |ps|
    requires forall j :: 0 <= j < |ps| ==> Le(Zero, ps[j].size)
    ensures Enclose(None, ps).Some?
    ensures var b := Enclose(None, ps).value;
      var t := Sub(ps[i].center, BoxCenter(b));
      Le(Sub(b.min, BoxCenter(b)), t) && Le(t, Sub(b.max, BoxCenter(b)))
  {
    EncloseContains(None, ps);
  }

  /* ---------------- colours written to the instances ---------------- */

  /** 0xRRGGBB as Color.set(hex) reads it. */
  function HexToRgb(hex: nat): Rgb
  {
    Rgb(((hex / 65536) % 256) as real / 255.0, ((hex / 256) % 256) as real / 255.0, (hex % 256) as real / 255.0)
  }

  /** The instance colour of a proxy: flat colours and the fallback are
      linearised once; a texture average already is linear. */
  function InstanceColor(c: ColorChoice, fallback: Rgb, pow24: real -> real): Rgb
  {
    match c
    case FlatColor(rgb) => SrgbToLinear(rgb, pow24)
    case TextureAverage(rgb) => rgb
    case NoColor => SrgbToLinear(fallback, pow24)
  }

  /** The instance colour as lines 181-192 compute it: every non-null
      colour is linearised again, texture averages included. */
  function InstanceColorAsWritten(c: ColorChoice, fallback: Rgb, pow24: real -> real): Rgb
  {
    match c
    case FlatColor(rgb) => SrgbToLinear(rgb, pow24)
    case TextureAverage(rgb) => SrgbToLinear(rgb, pow24)
    case NoColor => SrgbToLinear(fallback, pow24)
  }

  /** A dark grey texture: as written, its average reaches the instance
      linearised twice, which differs from linearising it once. */
  lemma TextureColorLinearisedTwice(pow24: real -> real)
    ensures var rgba := seq(4 * SamplePixels, i => 10);
      var sampled := TextureColor(Drawn(rgba), pow24);
      && sampled.Some?
      && InstanceColorAsWritten(TextureAverage(sampled.value), Rgb(0.0, 0.0, 0.0), pow24)
         != SrgbToLinear(AverageColor(rgba), pow24)
      && InstanceColor(TextureAverage(sampled.value), Rgb(0.0, 0.0, 0.0), pow24)
         == SrgbToLinear(AverageColor(rgba), pow24)
  {
    var rgba := seq(4 * SamplePixels, i => 10);
    ChannelSumConstant(rgba, 0, 0, 10, SamplePixels);
    assert AverageColor(rgba).r == 640.0 / 16320.0;
  }

  /** Over q remaining pixels of one constant value v, a channel sums to
      v times q. */
  lemma {:induction false} ChannelSumConstant(rgba: seq<int>, from: nat, channel: nat, v: int, q: nat)
    requires channel < 4 && |rgba| % 4 == 0 && from % 4 == 0 && |rgba| - from == 4 * q
    requires forall i :: 0 <= i < |rgba| ==> rgba[i] == v
    ensures ChannelSum(rgba, from, channel) == v * q
    decreases q
  {
    if q > 0 {
      ChannelSumConstant(rgba, from + 4, channel, v, q - 1);
      assert v * q == v * (q - 1) + v;
    }
  }

  /** Every proxy gets a colour, and with the flag off it is the linearised
      fallback colour. */
  function InstanceColors(ps: seq<Proxy>, fallback: Rgb, pow24: real -> real): (cs: seq<Rgb>)
    ensures |cs| == |ps|
    ensures forall i :: 0 <= i < |ps| && ps[i].color == NoColor ==> cs[i] == SrgbToLinear(fallback, pow24)
  {
    seq(|ps|, i requires 0 <= i < |ps| => InstanceColor(ps[i].color, fallback, pow24))
  }

  /** The sRGB colour a mesh offers before any linearisation: its first
      material's `.color`, else the raw average of its texture, else the
      fallback colour. */
  function SourceSrgb(useGLBColors: bool, slot: MaterialSlot, fallback: Rgb): Rgb
  {
    if !useGLBColors then fallback
    else match FirstMaterial(slot)
      case None => fallback
      case Some(mat) =>
        if mat.color.Some? then mat.color.value
        else if mat.mapImage.Some? && mat.mapImage.value.Drawn? && |mat.mapImage.value.rgba| == 4 * SamplePixels then
          AverageColor(mat.mapImage.value.rgba)
        else fallback
  }

  /** Whatever the colour source, the instance colour is that source's
      sRGB colour linearised exactly once. */
  lemma InstanceColorLinearisedOnce(useGLBColors: bool, slot: MaterialSlot, fallback: Rgb, pow24: real -> real)
    ensures InstanceColor(ColorOf(useGLBColors, slot, pow24), fallback, pow24)
      == SrgbToLinear(SourceSrgb(useGLBColors, slot, fallback), pow24)
  {
    if useGLBColors && FirstMaterial(slot).Some? {
      var mat := FirstMaterial(slot).value;
      if mat.color.None? && mat.mapImage.Some? {
        match mat.mapImage.value
        case Drawn(rgba) =>
        case Unreadable =>
      }
    }
  }

  /** sampleTextureAverage: sum r, g and b over the RGBA bytes four at a
      time, divide by 255 x 64 and linearise; null when drawing threw. */
  method SampleTextureAverage(img: ImageSample, pow24: real -> real) returns (c: Option<Rgb>)
    ensures c == TextureColor(img, pow24)
    ensures c.Some? ==> img.Drawn? && c.value == SrgbToLinear(AverageColor(img.rgba), pow24)
  {
    if img.Unreadable? || |img.rgba| != 4 * SamplePixels {
      return None;
    }
    var data := img.rgba;
    var r, g, b := 0, 0, 0;
    var i := 0;
    while i < |data|
      invariant 0 <= i <= |data| && i % 4 == 0
      invariant r + ChannelSum(data, i, 0) == ChannelSum(data, 0, 0)
      invariant g + ChannelSum(data, i, 1) == ChannelSum(data, 0, 1)
      invariant b + ChannelSum(data, i, 2) == ChannelSum(data, 0, 2)
    {
      r := r + data[i];
      g := g + data[i + 1];
      b := b + data[i + 2];
      i := i + 4;
    }
    var n := (255 * SamplePixels) as real;
    c := Some(SrgbToLinear(Rgb(r as real / n, g as real / n, b as real / n), pow24));
  }

  /** Texture averages of byte-valued samples lie in [0, 1] before
      linearisation. */
  lemma AverageInUnitRange(rgba: seq<int>)
    requires |rgba| == 4 * SamplePixels
    requires forall i :: 0 <= i < |rgba| ==> 0 <= rgba[i] <= 255
    ensures var c := AverageColor(rgba);
      0.0 <= c.r <= 1.0 && 0.0 <= c.g <= 1.0 && 0.0 <= c.b <= 1.0
  {
    ChannelSumBounds(rgba, 0, 0);
    ChannelSumBounds(rgba, 0, 1);
    ChannelSumBounds(rgba, 0, 2);
  }

  lemma {:induction false} ChannelSumBounds(rgba: seq<int>, from: nat, channel: nat)
    requires channel < 4 && |rgba| % 4 == 0 && from % 4 == 0 && from <= |rgba|
    requires forall i :: 0 <= i < |rgba| ==> 0 <= rgba[i] <= 255
    ensures 0 <= ChannelSum(rgba, from, channel) <= 255 * ((|rgba| - from) / 4)
    decreases |rgba| - from
  {
    if from < |rgba| {
      ChannelSumBounds(rgba, from + 4, channel);
    }
  }

  /* ---------------- the frame step, per proxy ---------------- */

  /** dt = min(max(dtRaw, 1/240), 1/30) */
  function ClampDt(dtRaw: real): (dt: real)
    ensures MinDt <= dt <= MaxDt
    ensures MinDt <= dtRaw <= MaxDt ==> dt == dtRaw
    ensures dtRaw < MinDt ==> dt == MinDt
    ensures dtRaw > MaxDt ==> dt == MaxDt
  {
    Min(Max(dtRaw, MinDt), MaxDt)
  }

  /** Dot(d, d): the squared distance the source computes axis by axis. */
  function Dist2(d: Vec3): (r: real)
    ensures r >= 0.0
  {
    d.x * d.x + d.y * d.y + d.z * d.z
  }

  /** rep x (1 - dist / radius) */
  function Falloff(repel: real, dist: real, radius: real): real
    requires radius != 0.0
  {
    repel * (1.0 - dist / radius)
  }

  /** (d / dist) x f, axis by axis. */
  function Push(d: Vec3, dist: real, f: real): Vec3
    requires dist != 0.0
  {
    Vec3(d.x / dist * f, d.y / dist * f, d.z / dist * f)
  }

  /** The magnitude of the repulsion: rep x (1 - dist / radius) inside the
      hover radius, with dist floored at MinDist; zero outside. The source
      divides by Math.sqrt(hoverRadius * hoverRadius), which is written here
      as the value it denotes, |hoverRadius|. */
  function RepulsionStrength(p: Vec3, hover: Option<Vec3>, prm: Physics, sqrt: real -> real): real
  {
    if hover.None? then 0.0
    else
      var dist2 := Dist2(Sub(p, hover.value));
      var hr2 := prm.hoverRadius * prm.hoverRadius;
      if dist2 < hr2 then Falloff(prm.repel, Max(sqrt(dist2), MinDist), Abs(prm.hoverRadius))
      else 0.0
  }

  /** The repulsion vector: the strength along (p - hover) / dist. */
  function Repulsion(p: Vec3, hover: Option<Vec3>, prm: Physics, sqrt: real -> real): Vec3
  {
    if hover.None? then Zero
    else
      var d := Sub(p, hover.value);
      if Dist2(d) < prm.hoverRadius * prm.hoverRadius then
        Push(d, Max(sqrt(Dist2(d)), MinDist), RepulsionStrength(p, hover, prm, sqrt))
      else Zero
  }

  /** -k (pos - tgt) - d vel, plus the repulsion. */
  function Accel(m: Motion, target: Vec3, hover: Option<Vec3>, prm: Physics, sqrt: real -> real): Vec3
  {
    Add(Sub(Scale(-prm.spring, Sub(m.pos, target)), Scale(prm.damping, m.vel)), Repulsion(m.pos, hover, prm, sqrt))
  }

  /** Semi-implicit Euler: the velocity first, then the position with the
      new velocity. */
  function Advance(m: Motion, target: Vec3, hover: Option<Vec3>, prm: Physics, sqrt: real -> real, dt: real): Motion
  {
    var v := Add(m.vel, Scale(dt, Accel(m, target, hover, prm, sqrt)));
    Motion(Add(m.pos, Scale(dt, v)), v)
  }

  /** The position moves by the NEW velocity times dt, and the velocity by
      the acceleration times dt. */
  lemma AdvanceIsSemiImplicit(m: Motion, target: Vec3, hover: Option<Vec3>, prm: Physics, sqrt: real -> real, dt: real)
    ensures var r := Advance(m, target, hover, prm, sqrt, dt);
      Sub(r.pos, m.pos) == Scale(dt, r.vel) && Sub(r.vel, m.vel) == Scale(dt, Accel(m, target, hover, prm, sqrt))
  {
  }

  /** A proxy resting on its target with zero velocity and no hover point
      stays exactly where it is. */
  lemma RestIsFixedPoint(m: Motion, target: Vec3, hover: Option<Vec3>, prm: Physics, sqrt: real -> real, dt: real)
    requires m.pos == target && m.vel == Zero && hover.None?
    ensures Advance(m, target, hover, prm, sqrt, dt) == m
  {
    assert Repulsion(m.pos, hover, prm, sqrt) == Zero;
    ScaleZero(dt);
    assert Sub(Scale(-prm.spring, Sub(m.pos, target)), Scale(prm.damping, m.vel)) == Zero;
  }

  lemma ScaleZero(s: real)
    ensures Scale(s, Zero) == Zero
  {
  }

  /** Without a hover point, or at or beyond the hover radius, there is no
      repulsion and the acceleration is spring plus damping alone. */
  lemma NoRepulsionOutsideRadius(m: Motion, target: Vec3, hover: Option<Vec3>, prm: Physics, sqrt: real -> real)
    requires hover.None? || Dist2(Sub(m.pos, hover.value)) >= prm.hoverRadius * prm.hoverRadius
    ensures Repulsion(m.pos, hover, prm, sqrt) == Zero
    ensures Accel(m, target, hover, prm, sqrt) == Sub(Scale(-prm.spring, Sub(m.pos, target)), Scale(prm.damping, m.vel))
  {
    if hover.Some? {
      var d := Sub(m.pos, hover.value);
      assert !(Dist2(d) < prm.hoverRadius * prm.hoverRadius);
    }
  }

  lemma FalloffInRange(repel: real, dist: real, radius: real)
    requires repel >= 0.0 && 0.0 < dist <= radius
    ensures 0.0 <= Falloff(repel, dist, radius) <= repel
  {
    DivUnit(dist, radius);
    MulUnitBound(repel, 1.0 - dist / radius);
  }

  lemma PushAway(d: Vec3, dist: real, f: real)
    requires dist > 0.0 && f >= 0.0
    ensures Dot(Push(d, dist, f), d) >= 0.0
  {
    var c := f / dist;
    assert d.x / dist * f == c * d.x && d.y / dist * f == c * d.y && d.z / dist * f == c * d.z;
    assert Dot(Push(d, dist, f), d) == c * Dist2(d);
  }

  /** Inside the radius, the floored distance is positive and at most the
      radius when the radius is at least MinDist. */
  lemma FlooredDistWithinRadius(sqrt: real -> real, dist2: real, h: real)
    requires IsSqrt(sqrt) && 0.0 <= dist2 < h * h && Abs(h) >= MinDist
    ensures 0.0 < Max(sqrt(dist2), MinDist) <= Abs(h)
  {
    SqrtOfSquare(sqrt, h);
    SqrtStrictlyMonotone(sqrt, dist2, h * h);
  }

  /** Inside the radius the strength lies in [0, repel] (for a non-negative
      repel and a radius of at least MinDist), and the force never pulls the
      proxy towards the hover point. */
  lemma RepulsionBounded(p: Vec3, h: Vec3, prm: Physics, sqrt: real -> real)
    requires IsSqrt(sqrt)
    requires prm.repel >= 0.0 && Abs(prm.hoverRadius) >= MinDist
    ensures 0.0 <= RepulsionStrength(p, Some(h), prm, sqrt) <= prm.repel
    ensures Dot(Repulsion(p, Some(h), prm, sqrt), Sub(p, h)) >= 0.0
  {
    var d := Sub(p, h);
    if Dist2(d) < prm.hoverRadius * prm.hoverRadius {
      FlooredDistWithinRadius(sqrt, Dist2(d), prm.hoverRadius);
      var dist := Max(sqrt(Dist2(d)), MinDist);
      var f := RepulsionStrength(p, Some(h), prm, sqrt);
      assert f == Falloff(prm.repel, dist, Abs(prm.hoverRadius));
      FalloffInRange(prm.repel, dist, Abs(prm.hoverRadius));
      assert Repulsion(p, Some(h), prm, sqrt) == Push(d, dist, f);
      PushAway(d, dist, f);
    }
  }

  lemma DivUnit(a: real, b: real)
    requires 0.0 < a <= b
    ensures 0.0 < a / b <= 1.0
  {
  }

  /* ---------------- the swarm and its buffers ---------------- */

  function At3(a: seq<real>, i: nat): Vec3
    requires 3 * i + 2 < |a|
  {
    Vec3(a[3 * i], a[3 * i + 1], a[3 * i + 2])
  }

  function At4(a: seq<real>, i: nat): Quat
    requires 4 * i + 3 < |a|
  {
    Quat(a[4 * i], a[4 * i + 1], a[4 * i + 2], a[4 * i + 3])
  }

  function MotionAt(p: seq<real>, v: seq<real>, i: nat): Motion
    requires 3 * i + 2 < |p| && 3 * i + 2 < |v|
  {
    Motion(At3(p, i), At3(v, i))
  }

  /** A random draw per axis, each in [0, 1). */
  predicate InUnitCube(r: Vec3)
  {
    0.0 <= r.x < 1.0 && 0.0 <= r.y < 1.0 && 0.0 <= r.z < 1.0
  }

  /** The initial offset of a proxy from its target: (random - 0.5) x 0.02 x size. */
  function JitterOffset(r: Vec3, size: Vec3): (o: Vec3)
  {
    Vec3((r.x - 0.5) * JitterSpan * size.x, (r.y - 0.5) * JitterSpan * size.y, (r.z - 0.5) * JitterSpan * size.z)
  }

  /** Each initial position is within 0.01 x size of its target. */
  lemma JitterWithinOnePercent(r: Vec3, size: Vec3)
    requires InUnitCube(r) && Le(Zero, size)
    ensures var o := JitterOffset(r, size);
      Abs(o.x) <= 0.01 * size.x && Abs(o.y) <= 0.01 * size.y && Abs(o.z) <= 0.01 * size.z
  {
    JitterAxis(r.x, size.x);
    JitterAxis(r.y, size.y);
    JitterAxis(r.z, size.z);
  }

  lemma JitterAxis(r: real, s: real)
    requires 0.0 <= r < 1.0 && 0.0 <= s
    ensures Abs((r - 0.5) * JitterSpan * s) <= 0.01 * s
  {
    var k := JitterSpan * s;
    assert (r - 0.5) * JitterSpan * s == (r - 0.5) * k;
    NonNegProduct(r, k);
    NonNegProduct(1.0 - r, k);
    assert (r - 0.5) * k == r * k - 0.5 * k;
    assert (r - 0.5) * k == 0.5 * k - (1.0 - r) * k;
  }

  /** The rest pose of proxy i in flat buffers: re-centred target,
      jittered position, zero velocity, size and rotation. */
  ghost predicate Filled(p: seq<real>, v: seq<real>, t: seq<real>, s: seq<real>, q: seq<real>,
                         ps: seq<Proxy>, c: Vec3, jitter: nat -> Vec3)
  {
    && |p| == 3 * |ps| && |v| == 3 * |ps| && |t| == 3 * |ps| && |s| == 3 * |ps| && |q| == 4 * |ps|
    && forall i :: 0 <= i < |ps| ==>
      && At3(t, i) == Sub(ps[i].center, c)
      && At3(p, i) == Add(At3(t, i), JitterOffset(jitter(i), ps[i].size))
      && At3(v, i) == Zero
      && At3(s, i) == ps[i].size
      && At4(q, i) == ps[i].quat
  }

  /** The fill loop of the build, for the targets and positions: the
      re-centred proxy centre, and that centre plus the random jitter. */
  method FillTargets(ps: seq<Proxy>, c: Vec3, jitter: nat -> Vec3) returns (t: array<real>, p: array<real>)
    ensures fresh(t) && fresh(p) && t != p && t.Length == 3 * |ps| && p.Length == 3 * |ps|
    ensures forall i :: 0 <= i < |ps| ==>
      At3(t[..], i) == Sub(ps[i].center, c) && At3(p[..], i) == Add(At3(t[..], i), JitterOffset(jitter(i), ps[i].size))
  {
    t := new real[3 * |ps|];
    p := new real[3 * |ps|];
    var i := 0;
    while i < |ps|
      invariant 0 <= i <= |ps|
      invariant forall j :: 0 <= j < i ==>
        At3(t[..], j) == Sub(ps[j].center, c) && At3(p[..], j) == Add(At3(t[..], j), JitterOffset(jitter(j), ps[j].size))
    {
      var ct := Sub(ps[i].center, c);
      var pt := Add(ct, JitterOffset(jitter(i), ps[i].size));
      t[3 * i], t[3 * i + 1], t[3 * i + 2] := ct.x, ct.y, ct.z;
      p[3 * i], p[3 * i + 1], p[3 * i + 2] := pt.x, pt.y, pt.z;
      i := i + 1;
    }
  }

  /** The fill loop of the build, for the instance scale and rotation. */
  method FillShapes(ps: seq<Proxy>) returns (s: array<real>, q: array<real>)
    ensures fresh(s) && fresh(q) && s != q && s.Length == 3 * |ps| && q.Length == 4 * |ps|
    ensures forall i :: 0 <= i < |ps| ==> At3(s[..], i) == ps[i].size && At4(q[..], i) == ps[i].quat
  {
    s := new real[3 * |ps|];
    q := new real[4 * |ps|];
    var i := 0;
    while i < |ps|
      invariant 0 <= i <= |ps|
      invariant forall j :: 0 <= j < i ==> At3(s[..], j) == ps[j].size && At4(q[..], j) == ps[j].quat
    {
      s[3 * i], s[3 * i + 1], s[3 * i + 2] := ps[i].size.x, ps[i].size.y, ps[i].size.z;
      q[4 * i], q[4 * i + 1], q[4 * i + 2], q[4 * i + 3] := ps[i].quat.x, ps[i].quat.y, ps[i].quat.z, ps[i].quat.w;
      i := i + 1;
    }
  }

  /** All five buffers of the build; velocities start at zero. */
  method FillBuffers(ps: seq<Proxy>, c: Vec3, jitter: nat -> Vec3)
    returns (p: array<real>, v: array<real>, t: array<real>, s: array<real>, q: array<real>)
    ensures fresh(p) && fresh(v) && fresh(t) && fresh(s) && fresh(q)
    ensures p != v && p != t && v != t && p != s && v != s && p != q && v != q
    ensures Filled(p[..], v[..], t[..], s[..], q[..], ps, c, jitter)
  {
    t, p := FillTargets(ps, c, jitter);
    s, q := FillShapes(ps);
    v := new real[3 * |ps|](_ => 0.0);
    forall i | 0 <= i < |ps| ensures At3(v[..], i) == Zero {
    }
  }

  class Swarm {
    var n: nat
    var pos: array<real>
    var vel: array<real>
    var tgt: array<real>
    var scale: array<real>
    var quat: array<real>
    /** Whether an InstancedMesh is mounted (instRef.current != null). */
    var hasInstance: bool
    var instanceColors: seq<Rgb>
    const physics: Physics
    const sqrt: real -> real
    const pow24: real -> real

    ghost predicate Valid()
      reads this
    {
      && pos.Length == 3 * n && vel.Length == 3 * n && tgt.Length == 3 * n
      && scale.Length == 3 * n && quat.Length == 4 * n
      && pos != vel && pos != tgt && vel != tgt && pos != scale && vel != scale
      && pos != quat && vel != quat
    }

    constructor (physics: Physics, sqrt: real -> real, pow24: real -> real)
      ensures Valid() && n == 0 && !hasInstance
      ensures this.physics == physics && this.sqrt == sqrt && this.pow24 == pow24
    {
      this.physics, this.sqrt, this.pow24 := physics, sqrt, pow24;
      n := 0;
      pos := new real[0];
      vel := new real[0];
      tgt := new real[0];
      scale := new real[0];
      quat := new real[0];
      hasInstance := false;
      instanceColors := [];
    }

    /** The buffers hold the rest pose built from `ps`, centred on `c`. */
    ghost predicate BuiltFrom(ps: seq<Proxy>, c: Vec3, jitter: nat -> Vec3)
      reads this, pos, vel, tgt, scale, quat
    {
      n == |ps| && Filled(pos[..], vel[..], tgt[..], scale[..], quat[..], ps, c, jitter)
    }

    /** The effect cleanup: the instanced mesh is removed and disposed. */
    method Teardown()
      requires Valid()
      modifies this`hasInstance
      ensures Valid() && !hasInstance
    {
      hasInstance := false;
    }

    /** The build effect: extract the proxies; with none, return before
      touching anything; otherwise report the bounds, allocate the
      buffers, fill them proxy by proxy and colour the instances. */
    method Build(scene: seq<SceneNode>, shrink: real, useGLBColors: bool, fallbackColor: nat, jitter: nat -> Vec3)
      returns (report: Option<BoundsReport>)
      requires Valid()
      requires forall i :: InUnitCube(jitter(i))
      modifies this
      ensures Valid()
      ensures var ps := Extract(scene, shrink, useGLBColors, pow24);
        if ps == [] then
          report == None && n == old(n) && hasInstance == old(hasInstance)
          && pos == old(pos) && vel == old(vel) && tgt == old(tgt) && scale == old(scale) && quat == old(quat)
          && instanceColors == old(instanceColors)
        else
          && Enclose(None, ps).Some?
          && var box := Enclose(None, ps).value;
          && Ordered(box)
          && report == Some(ReportOf(box))
          && fresh(pos) && fresh(vel) && fresh(tgt) && fresh(scale) && fresh(quat)
          && BuiltFrom(ps, BoxCenter(box), jitter)
          && hasInstance
          && instanceColors == InstanceColors(ps, HexToRgb(fallbackColor), pow24)
    {
      var ps := Extract(scene, shrink, useGLBColors, pow24);
      var count := |ps|;
      if count == 0 {
        return None;
      }
      EncloseContains(None, ps);
      var box := Enclose(None, ps).value;
      var c := BoxCenter(box);
      report := Some(ReportOf(box));

      Install(ps, c, jitter, InstanceColors(ps, HexToRgb(fallbackColor), pow24));
    }

    /** Allocates and fills the buffers for `ps` and mounts the coloured
      instances. */
    method Install(ps: seq<Proxy>, c: Vec3, jitter: nat -> Vec3, colors: seq<Rgb>)
      modifies this
      ensures Valid()
      ensures fresh(pos) && fresh(vel) && fresh(tgt) && fresh(scale) && fresh(quat)
      ensures BuiltFrom(ps, c, jitter) && hasInstance && instanceColors == colors
    {
      var p, v, t, s, q := FillBuffers(ps, c, jitter);
      n, pos, vel, tgt, scale, quat := |ps|, p, v, t, s, q;
      instanceColors := colors;
      hasInstance := true;
    }

    /** The physics frame callback: with no instance or no proxy it does
      nothing; otherwise each proxy advances by one clamped time step, in
      place, and only the position and velocity buffers change. */
    method Step(dtRaw: real, hover: Option<Vec3>)
      requires Valid()
      modifies pos, vel
      ensures Valid()
      ensures tgt[..] == old(tgt[..]) && scale[..] == old(scale[..]) && quat[..] == old(quat[..])
      ensures !hasInstance || n == 0 ==> pos[..] == old(pos[..]) && vel[..] == old(vel[..])
      ensures hasInstance ==> forall i :: 0 <= i < n ==>
        MotionAt(pos[..], vel[..], i)
          == Advance(MotionAt(old(pos[..]), old(vel[..]), i), At3(tgt[..], i), hover, physics, sqrt, ClampDt(dtRaw))
    {
      if !hasInstance || n == 0 {
        return;
      }
      var dt := ClampDt(dtRaw);
      var i := 0;
      while i < n
        invariant 0 <= i <= n
        invariant forall j :: 0 <= j < i ==>
          MotionAt(pos[..], vel[..], j)
            == Advance(MotionAt(old(pos[..]), old(vel[..]), j), At3(tgt[..], j), hover, physics, sqrt, dt)
        invariant forall k :: 3 * i <= k < 3 * n ==> pos[k] == old(pos[k]) && vel[k] == old(vel[k])
      {
        var ix := 3 * i;
        var m := Motion(Vec3(pos[ix], pos[ix + 1], pos[ix + 2]), Vec3(vel[ix], vel[ix + 1], vel[ix + 2]));
        assert m == MotionAt(old(pos[..]), old(vel[..]), i);
        var next := Advance(m, Vec3(tgt[ix], tgt[ix + 1], tgt[ix + 2]), hover, physics, sqrt, dt);
        vel[ix], vel[ix + 1], vel[ix + 2] := next.vel.x, next.vel.y, next.vel.z;
        pos[ix], pos[ix + 1], pos[ix + 2] := next.pos.x, next.pos.y, next.pos.z;
        i := i + 1;
      }
    }
  }
}

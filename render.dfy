/**
 * The renderer's state and the transform it builds for each planet. The
 * graphics calls themselves are not modelled: a draw is described by the
 * `DrawCall` value it would issue.
 */
module Render {
  import opened Host
  import opened Vectors
  import opened Matrices
  import opened Physics

  /** What one `drawPlanet` hands to the graphics device. */
  datatype DrawCall = DrawCall(matrix: Mat4, color: Color, texture: Option<string>)

  /**
   * The six factors of a planet's transform, in the order they are
   * multiplied: scale, spin about z, move to the planet's position, scene
   * rotation about y, move the camera to the origin, project.
   */
  function Factors(position: Vec3, scale: real, rotation: real, sceneAngle: real, camera: Vec3,
                   projection: Mat4, math: Math): (r: seq<Mat4>)
    ensures |r| == 6 && r[5] == projection
    ensures Affine(projection) ==> AllAffine(r)
  {
    [ScalingMatrix(scale, scale, scale),
     ZRotationMatrix(math.cos(rotation), math.sin(rotation)),
     TranslationMatrix(position),
     YRotationMatrix(math.cos(sceneAngle), math.sin(sceneAngle)),
     TranslationMatrix(Neg(camera)),
     projection]
  }

  /** The projection for a canvas of the given size: it squeezes x by the aspect ratio and shrinks everything twentyfold. */
  function Projection(width: real, height: real): (m: Mat4)
    requires width != 0.0 && height != 0.0
    ensures Affine(m)
    ensures m[0] * (20.0 * (width / height)) == 1.0 && m[5] == 1.0 / 20.0 && m[10] == 1.0 / 20.0
  {
    ScalingMatrix(1.0 / (20.0 * (width / height)), 1.0 / 20.0, 1.0 / 20.0)
  }

  /**
   * What a draw takes from the renderer: the scene angle, the camera, the
   * projection and the names of the images that became textures.
   */
  datatype View = View(a: real, camera: Vec3, projection: Mat4, textureNames: set<string>)

  /**
   * The draw `drawPlanet` issues for one planet: the true product of the
   * six factors, the planet's color, and its texture when one was made for
   * its image.
   */
  function PlanetDraw(view: View, position: Vec3, imageFilename: string, scale: real, rotation: real, color: Color,
                      math: Math): (r: DrawCall)
    requires Affine(view.projection)
    ensures Affine(r.matrix) && r.color == color
    ensures r.texture.Some? <==> imageFilename in view.textureNames
    ensures r.texture.Some? ==> r.texture.value == imageFilename
  {
    var factors := Factors(position, scale, rotation, view.a, view.camera, view.projection, math);
    ChainProductAffine(factors);
    DrawCall(ChainProduct(factors), color, if imageFilename in view.textureNames then Some(imageFilename) else None)
  }

  class Renderer {
    /** False once shader compilation or linking has failed. */
    var initialized: bool
    /** Scene rotation angle about the y axis. */
    var a: real
    var doYRotation: bool
    var cameraPosition: Vec3
    /** Set only when setup got as far as the end of the constructor. */
    var projectionMatrix: Option<Mat4>
    /** The image names that were turned into textures. */
    var textureNames: set<string>

    ghost predicate Valid()
      reads this
    {
      (initialized <==> projectionMatrix.Some?) &&
      (projectionMatrix.Some? ==> Affine(projectionMatrix.value))
    }

    /**
     * Set up for a `width` by `height` canvas with the given images. The
     * outcome of compiling the two shaders and linking the program comes
     * from the graphics device and is passed in; a failure leaves the
     * renderer uninitialized, with no projection and no textures.
     */
    constructor(width: real, height: real, images: set<string>,
                vertexCompiled: bool, fragmentCompiled: bool, programLinked: bool)
      requires vertexCompiled && fragmentCompiled && programLinked ==> width != 0.0 && height != 0.0
      ensures Valid()
      ensures a == 0.0 && !doYRotation && cameraPosition == Vec3(0.0, 0.0, -10.0)
      ensures initialized <==> vertexCompiled && fragmentCompiled && programLinked
      ensures initialized ==> projectionMatrix == Some(Projection(width, height)) && textureNames == images
      ensures !initialized ==> textureNames == {}
    {
      initialized := true;
      a := 0.0;
      doYRotation := false;
      cameraPosition := Vec3(0.0, 0.0, -10.0);
      projectionMatrix := None;
      textureNames := {};
      new;
      if !vertexCompiled || !fragmentCompiled {
        initialized := false;
        return;
      }
      if !programLinked {
        initialized := false;
        return;
      }
      textureNames := images;
      projectionMatrix := Some(Projection(width, height));
    }

    /** The part of the current state a draw depends on. */
    ghost function Current(): (v: View)
      reads this
      requires Valid() && initialized
      ensures Affine(v.projection) && v.textureNames == textureNames
    {
      View(a, cameraPosition, projectionMatrix.value, textureNames)
    }

    /**
     * Draw one planet: fold the six factors with `MultiplyMat4`, left to
     * right. Every factor is affine, so the slip in `MultiplyMat4` never
     * shows and the result is the true product of the factors.
     */
    method DrawPlanet(position: Vec3, imageFilename: string, scale: real, rotation: real, color: Color,
                      math: Math) returns (call: DrawCall)
      requires Valid() && initialized
      ensures call == PlanetDraw(Current(), position, imageFilename, scale, rotation, color, math)
    {
      var list := Factors(position, scale, rotation, a, cameraPosition, projectionMatrix.value, math);
      // The source also guards against a null running product; every
      // factor here is a matrix, so that branch never runs.
      var matrix := list[0];
      for i := 1 to |list|
        invariant matrix == ChainProduct(list[..i])
        invariant Affine(matrix)
      {
        assert list[..i + 1][..i] == list[..i];
        MultiplyMat4Affine(matrix, list[i]);
        AffineProduct(matrix, list[i]);
        matrix := MultiplyMat4(matrix, list[i]);
      }
      assert list[..|list|] == list;
      var texture := if imageFilename in textureNames then Some(imageFilename) else None;
      call := DrawCall(matrix, color, texture);
    }
  }
}

/**
 * The deferred renderer's geometry buffer (`sigma::opengl::geometry_buffer`): a
 * framebuffer with position, diffuse, normal and depth-stencil textures and two
 * accumulation images used in ping-pong.  One image is read by effect passes
 * (`input_image_`), the other is attached as `OUTPUT_IMAGE_ATTACHMENT` and drawn
 * into (`output_image_`).
 *
 * GL state is modelled abstractly: which texture is attached where, the current
 * draw-buffer list, which texture is bound on each texture unit, and a log of the
 * textures cleared together with the clear colour.
 */
module GeometryBuffer {

  /** Framebuffer attachment points; `NoAttachment` is `attachment::NONE`. */
  datatype Attachment = WorldPosition | DiffuseColor | Normal | OutputImage | DepthStencil | NoAttachment

  /** The textures the buffer owns; `Image(k)` is `images_[k]`. */
  datatype Texture = PositionTexture | DiffuseTexture | NormalTexture | DepthStencilTexture | Image(index: nat)

  /** The texture units effect shaders sample from. */
  datatype TextureUnit = WorldPositionUnit | DiffuseColorUnit | NormalUnit | InputImageUnit

  /** A clear colour (`glm::vec4`); its components play no part here. */
  type Color(==)

  /** The draw-buffer list of the geometry pass. */
  const GeometryTargets: seq<Attachment> := [WorldPosition, DiffuseColor, Normal]

  class GBuffer {
    var inputImage: nat
    var outputImage: nat
    var attachments: map<Attachment, Texture>
    var drawBuffers: seq<Attachment>
    var boundUnits: map<TextureUnit, Texture>
    /** Every clear so far: the texture cleared and the colour it was cleared to. */
    var cleared: seq<(Texture, Color)>

    /**
     * The indices are 0 and 1 in some order, and the output attachment is always
     * `images_[output_image_]`; nothing is ever attached at `NONE`.
     */
    ghost predicate Valid()
      reads this
    {
      inputImage < 2 && outputImage < 2 && inputImage != outputImage &&
      OutputImage in attachments && attachments[OutputImage] == Image(outputImage) &&
      NoAttachment !in attachments
    }

    /** The textures written by a draw: those attached at the current draw buffers. */
    ghost function DrawTargets(): set<Texture>
      reads this
    {
      set a | a in drawBuffers && a in attachments :: attachments[a]
    }

    /** Input 0, output 1; every texture attached; the geometry targets selected. */
    constructor ()
      ensures Valid()
      ensures inputImage == 0 && outputImage == 1
      ensures attachments == map[WorldPosition := PositionTexture, DiffuseColor := DiffuseTexture,
                                 Normal := NormalTexture, OutputImage := Image(1),
                                 DepthStencil := DepthStencilTexture]
      ensures drawBuffers == GeometryTargets
      ensures boundUnits == map[] && cleared == []
    {
      inputImage := 0;
      outputImage := 1;
      attachments := map[];
      boundUnits := map[];
      cleared := [];
      new;
      Attach(WorldPosition, PositionTexture);
      Attach(DiffuseColor, DiffuseTexture);
      Attach(Normal, NormalTexture);
      Attach(OutputImage, Image(outputImage));
      Attach(DepthStencil, DepthStencilTexture);
      drawBuffers := GeometryTargets;
    }

    /** `frame_buffer::attach`: `t` becomes the texture at attachment point `a`. */
    method Attach(a: Attachment, t: Texture)
      modifies this
      ensures attachments == old(attachments)[a := t]
      ensures inputImage == old(inputImage) && outputImage == old(outputImage)
      ensures drawBuffers == old(drawBuffers) && boundUnits == old(boundUnits) && cleared == old(cleared)
    {
      attachments := attachments[a := t];
    }

    /** `bind_for_geometry_pass`: draw into position, diffuse and normal again. */
    method BindForGeometryPass()
      requires Valid()
      modifies this
      ensures Valid() && drawBuffers == GeometryTargets
      ensures inputImage == old(inputImage) && outputImage == old(outputImage)
      ensures attachments == old(attachments) && boundUnits == old(boundUnits) && cleared == old(cleared)
    {
      drawBuffers := GeometryTargets;
    }

    /** `bind_for_stencil_pass`: draw into nothing. */
    method BindForStencilPass()
      requires Valid()
      modifies this
      ensures Valid() && drawBuffers == [NoAttachment] && DrawTargets() == {}
      ensures inputImage == old(inputImage) && outputImage == old(outputImage)
      ensures attachments == old(attachments) && boundUnits == old(boundUnits) && cleared == old(cleared)
    {
      drawBuffers := [NoAttachment];
    }

    /**
     * `bind_for_effect_pass`: draw into the output image only, and bind the
     * position, diffuse and normal textures and the input image for sampling.
     * The image sampled is never an image drawn into.
     */
    method BindForEffectPass()
      requires Valid()
      modifies this
      ensures Valid() && drawBuffers == [OutputImage]
      ensures boundUnits == old(boundUnits)[WorldPositionUnit := PositionTexture][DiffuseColorUnit := DiffuseTexture]
                                           [NormalUnit := NormalTexture][InputImageUnit := Image(inputImage)]
      ensures DrawTargets() == {Image(outputImage)}
      ensures boundUnits[InputImageUnit] !in DrawTargets()
      ensures inputImage == old(inputImage) && outputImage == old(outputImage)
      ensures attachments == old(attachments) && cleared == old(cleared)
    {
      drawBuffers := [OutputImage];
      boundUnits := boundUnits[WorldPositionUnit := PositionTexture];
      boundUnits := boundUnits[DiffuseColorUnit := DiffuseTexture];
      boundUnits := boundUnits[NormalUnit := NormalTexture];
      boundUnits := boundUnits[NormalUnit := NormalTexture];
      boundUnits := boundUnits[InputImageUnit := Image(inputImage)];
    }

    /**
     * `clear_input_image(color)`: despite the name, selects the output image as the
     * only draw buffer and clears it; neither index changes.
     */
    method ClearInputImage(color: Color)
      requires Valid()
      modifies this
      ensures Valid() && drawBuffers == [OutputImage]
      ensures cleared == old(cleared) + [(Image(outputImage), color)]
      ensures Image(inputImage) !in DrawTargets()
      ensures inputImage == old(inputImage) && outputImage == old(outputImage)
      ensures attachments == old(attachments) && boundUnits == old(boundUnits)
    {
      drawBuffers := [OutputImage];
      cleared := cleared + [(attachments[OutputImage], color)];
    }

    /**
     * `swap_input_image`: both indices step modulo 2, which exchanges them, and
     * the output attachment follows the new output index.  A second swap
     * exchanges them back and re-attaches the original output image.
     */
    method SwapInputImage()
      requires Valid()
      modifies this
      ensures Valid()
      ensures outputImage == (old(outputImage) + 1) % 2 && inputImage == (old(inputImage) + 1) % 2
      ensures inputImage == old(outputImage) && outputImage == old(inputImage)
      ensures attachments == old(attachments)[OutputImage := Image(old(inputImage))]
      ensures drawBuffers == old(drawBuffers) && boundUnits == old(boundUnits) && cleared == old(cleared)
    {
      outputImage := outputImage + 1;
      outputImage := outputImage % 2;
      inputImage := inputImage + 1;
      inputImage := inputImage % 2;
      Attach(OutputImage, Image(outputImage));
    }
  }
}

/** The constant-float node of the material graph and the part of the material
    template it writes to: the template's uniform table and its pixel-shader
    header lines. */
module Materials {
  import opened Platform
  import opened Rendering

  datatype Option<+T> = None | Some(value: T)

  /** The size of a node's return buffer, as passed to dSprintf. */
  const ReturnBufSize := 64

  /** The fixed part of the header line that declares a float node's uniform. */
  const UniformDeclPrefix := "uniform vec4 "

  /** The kind of value a consumer asks a node's reference to resolve to. Its
      enumerators belong to a header outside this model; the float node never
      looks at it. */
  datatype ReturnType = ReturnType(code: nat)

  /** The context of one generation pass. Only the target template is read
      here; the engine's other settings are not part of this model. */
  datatype MaterialGenerationSettings = MaterialGenerationSettings(matTemplate: MaterialTemplate?)

  /** The material template that a generation pass fills. */
  class MaterialTemplate {
    var uniforms: seq<UniformData>
    var pixelHeaders: seq<string>

    constructor ()
      ensures uniforms == [] && pixelHeaders == []
    {
      uniforms := [];
      pixelHeaders := [];
    }

    /** uniforms.addUniform(): append a fresh entry and give its index, for
        the caller to fill in. */
    method AddUniform() returns (i: nat)
      modifies this
      ensures i == |old(uniforms)|
      ensures uniforms == old(uniforms) + [FreshUniform]
      ensures pixelHeaders == old(pixelHeaders)
    {
      i := |uniforms|;
      uniforms := uniforms + [FreshUniform];
    }

    /** addPixelHeader: append one line, already formatted, to the pixel
        shader's headers. */
    method AddPixelHeader(line: string)
      modifies this
      ensures pixelHeaders == old(pixelHeaders) + [line]
      ensures uniforms == old(uniforms)
    {
      pixelHeaders := pixelHeaders + [line];
    }
  }

  /** The identifier a header line of the shape `uniform vec4 <id>;` declares. */
  function DeclaredUniform(line: string): Option<string> {
    var n := |UniformDeclPrefix|;
    if n < |line| && line[..n] == UniformDeclPrefix && line[|line| - 1] == ';'
    then Some(line[n..|line| - 1])
    else None
  }

  /** The header line generatePixel adds for a uniform called `name`. */
  function UniformDeclaration(name: CString): (line: string)
    ensures DeclaredUniform(line) == Some(name)
  {
    UniformDeclPrefix + name + ";"
  }

  /** The identifier a reference of the shape `<id>.x` selects from. */
  function ReferencedUniform(r: string): Option<string> {
    if |r| >= 2 && r[|r| - 2..] == ".x" then Some(r[..|r| - 2]) else None
  }

  /** What getPixelReference leaves in the return buffer: the uniform's first
      component when a name is set, the `%f` text of the value otherwise,
      cut to fit the buffer. `formatF` is the C library's `%f`. */
  function PixelReference(name: CString, value: F32, formatF: F32 -> CString): (r: CString)
    ensures |r| < ReturnBufSize
    ensures |name| > 0 && |name| + 2 < ReturnBufSize ==> r == name + ".x"
    ensures |name| > 0 ==> r == (name + ".x")[..|r|]
    ensures |name| > 0 && |name| + 2 >= ReturnBufSize ==> r == (name + ".x")[..ReturnBufSize - 1]
    ensures |name| == 0 ==> r == Bounded(ReturnBufSize, formatF(value))
  {
    if StrLen(name) > 0 then Bounded(ReturnBufSize, name + ".x")
    else Bounded(ReturnBufSize, formatF(value))
  }

  /** A reference to a named uniform selects from exactly the identifier that
      the uniform's header line declares, and it does so precisely when the
      name and its `.x` suffix fit in the return buffer. */
  lemma ReferenceNamesDeclaredUniform(name: CString, value: F32, formatF: F32 -> CString)
    requires |name| > 0
    ensures ReferencedUniform(PixelReference(name, value, formatF)) == DeclaredUniform(UniformDeclaration(name))
            <==> |name| + 2 < ReturnBufSize
  {
  }

  /** Materials::FloatNode, the node that stands for one float constant. */
  class FloatNode {
    /** The node's type tag, inherited from the base node. */
    var nodeType: string
    var uniformName: CString
    var value: F32
    /** The buffer getPixelReference writes its result into. */
    const returnBuf: array<char>

    constructor ()
      ensures nodeType == "Float" && uniformName == "" && value == ZeroF32
      ensures fresh(returnBuf) && returnBuf.Length == ReturnBufSize
    {
      nodeType := "Float";
      uniformName := "";
      value := ZeroF32;
      returnBuf := new char[ReturnBufSize];
    }

    /** Pixel-stage generation: with a uniform name set, add one uniform entry
        bound to the node's value and one header line declaring it; with no
        name, do nothing. The template is only reached when a name is set. */
    method GeneratePixel(settings: MaterialGenerationSettings, refType: ReturnType, flags: U32, shader: Shader)
      requires uniformName != "" ==> settings.matTemplate != null
      modifies settings.matTemplate
      ensures uniformName == "" && settings.matTemplate != null ==> unchanged(settings.matTemplate)
      ensures uniformName != "" ==>
        settings.matTemplate.uniforms == old(settings.matTemplate.uniforms)
          + [UniformData(shader.getUniform(uniformName, Vec4), 1, FloatValue(value))]
      ensures uniformName != "" ==>
        settings.matTemplate.pixelHeaders == old(settings.matTemplate.pixelHeaders) + [UniformDeclaration(uniformName)]
    {
      if StrLen(uniformName) > 0 {
        var t := settings.matTemplate;
        var i := t.AddUniform();
        t.uniforms := t.uniforms[i := t.uniforms[i].(count := 1)];
        t.uniforms := t.uniforms[i := t.uniforms[i].(uniform := shader.getUniform(uniformName, Vec4))];
        t.uniforms := t.uniforms[i := t.uniforms[i].(value := FloatValue(value))];
        t.AddPixelHeader(UniformDeclaration(uniformName));
      }
    }

    /** Pixel-stage reference: format the reference into the return buffer
        and give the C string it now holds. Only the buffer changes, and the
        result depends on the uniform name and the value alone. */
    method GetPixelReference(settings: MaterialGenerationSettings, refType: ReturnType, flags: U32, formatF: F32 -> CString)
      returns (r: CString)
      requires returnBuf.Length == ReturnBufSize
      modifies returnBuf
      ensures r == PixelReference(uniformName, value, formatF)
      ensures CStringAt(returnBuf[..]) == r
      ensures settings.matTemplate != null ==> unchanged(settings.matTemplate)
    {
      if StrLen(uniformName) > 0 {
        Sprintf(returnBuf, uniformName + ".x");
      } else {
        Sprintf(returnBuf, formatF(value));
      }
      r := CStringAt(returnBuf[..]);
    }
  }

  /** The two steps as a template runs them for one float node: generation,
      then the reference a consumer asks for. With a name set, the new last
      header declares that name, the new last uniform entry is the one the
      shader registry gives for it, and the reference selects from that same
      identifier whenever it fits the buffer. */
  method GenerateThenReference(node: FloatNode, settings: MaterialGenerationSettings, refType: ReturnType,
                               flags: U32, shader: Shader, formatF: F32 -> CString)
    returns (r: CString)
    requires node.uniformName != "" ==> settings.matTemplate != null
    requires node.returnBuf.Length == ReturnBufSize
    modifies settings.matTemplate, node.returnBuf
    ensures r == PixelReference(node.uniformName, node.value, formatF)
    ensures node.uniformName != "" ==>
      var t := settings.matTemplate;
      && |t.pixelHeaders| > 0 && |t.uniforms| > 0
      && DeclaredUniform(t.pixelHeaders[|t.pixelHeaders| - 1]) == Some(node.uniformName)
      && t.uniforms[|t.uniforms| - 1].uniform == shader.getUniform(node.uniformName, Vec4)
      && (ReferencedUniform(r) == Some(node.uniformName) <==> |node.uniformName| + 2 < ReturnBufSize)
  {
    node.GeneratePixel(settings, refType, flags, shader);
    r := node.GetPixelReference(settings, refType, flags, formatF);
    if node.uniformName != "" {
      ReferenceNamesDeclaredUniform(node.uniformName, node.value, formatF);
    }
  }
}

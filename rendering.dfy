/** The rendering backend's side of a material's uniforms: the handles bgfx
    gives out, the uniform entry a material template keeps for each uniform,
    and the shader registry that maps a name and a type to a handle. */
module Rendering {
  import opened Platform

  /** bgfx's handle to a uniform, a 16-bit index. */
  datatype UniformHandle = UniformHandle(idx: bv16)

  /** bgfx::invalidHandle, the index no live uniform has. */
  const InvalidHandle := UniformHandle(0xFFFF)

  /** bgfx's uniform kinds; the float node only asks for Vec4. */
  datatype UniformType = Int1 | Vec4 | Mat3 | Mat4

  /** The value bound to a uniform entry: none yet, or the scalar handed to
      UniformData::setValue. */
  datatype UniformValue = NoValue | FloatValue(x: F32)

  /** Rendering::UniformData: the handle of the uniform, its array count and
      its bound value. */
  datatype UniformData = UniformData(uniform: UniformHandle, count: nat, value: UniformValue)

  /** The entry UniformSet::addUniform hands out before the caller fills it. */
  const FreshUniform := UniformData(InvalidHandle, 0, NoValue)

  /** Graphics::Shader's uniform registry, seen as a function: the handle it
      gives for a uniform name and type. Its allocation of GPU handles is not
      part of this model. */
  datatype Shader = Shader(getUniform: (CString, UniformType) -> UniformHandle)
}

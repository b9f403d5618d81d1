# Constant-float material node

A model of `Materials::FloatNode`: the material-graph node for a single float
constant, and what its pixel-stage code generation does to the material
template. There are two operations:

- **generatePixel.** If the node has a uniform name, it adds one entry to the
  template's uniform table. The entry has count 1, the backend handle for the
  name as a `vec4`, and the node's value. It then appends the pixel-shader
  header line `uniform vec4 <name>;`. With an empty name it touches nothing
  and does not dereference the template pointer.
- **getPixelReference.** It formats either `<name>.x` or the `%f` text of the
  value into the node's 64-character return buffer and returns that buffer.

Three modules follow the engine's layers:

- `Platform` holds C strings (`CString`, a string without NUL), the bounded
  `dSprintf` that fills a buffer, the reading of a buffer as a `const char*`,
  and the scalar types (`F32` as its 32-bit pattern, `U32` as `bv32`). Each
  `char` stands for one byte of a C string.
- `Rendering` holds the uniform entry (`UniformData`), bgfx handles and
  uniform types, and the shader registry.
- `Materials` holds the template (a class with a `seq` of uniform entries and
  a `seq<string>` of pixel headers), the generation settings, the node (a
  class), and the functions that state what the reference and the header
  line are.

The two outside collaborators are function parameters, so they stay
uninterpreted:

- `Graphics::Shader::getUniform` is a `Shader` value mapping a name and a
  type to a handle.
- The C library's `%f` is `formatF: F32 -> CString`.

Two facts follow from the 64-byte buffer, with `dSprintf` read as C99
`vsnprintf` (see "## Left out"):

- A reference can hold at most 63 characters.
- A reference to a named uniform selects from exactly the declared
  identifier if and only if the name has at most 61 characters. A longer name
  is cut, so the reference no longer matches the header line.

Three things one might expect of a material-graph node are not in this code,
and the model follows the code:

- The code shown does not deduplicate. `addUniform` and `addPixelHeader` are
  modelled as plain appends (see "## Left out"). So each `generatePixel` with
  a name appends another uniform entry and another header line, where one
  might expect a second registration under the same name to update the
  first.
- The code ignores the requested return type. A named reference is always
  the `.x` component, where one might expect the reference to select or
  broadcast components to match the requested type.
- The code writes into a fixed 64-byte buffer and returns it. It does not
  return a result sized to fit the text.

## Model

| member | source | states |
|---|---|---|
| `Platform.StrLen` | src/materials/nodes/floatNode.cc:49 | The `dStrlen(name) > 0` test holds exactly when the name is not the empty string. |
| `Platform.Bounded` | src/materials/nodes/floatNode.cc:65-67 | Text written with a bounded `dSprintf` is the longest prefix of the full text that leaves room for the terminator. It is the whole text when the text fits, and exactly `size - 1` characters when it does not. |
| `Platform.CStringAt` | src/materials/nodes/floatNode.cc:69 | The returned `const char*` designates a NUL-free prefix of the buffer that ends just before the first NUL. |
| `Platform.CStringAtTerminated` | src/materials/nodes/floatNode.cc:65-69 | A buffer holding a text followed by NUL reads back as exactly that text, whatever follows the terminator. |
| `Platform.Sprintf` | src/materials/nodes/floatNode.cc:65-67 | `dSprintf` into the buffer writes the part of the text that fits, then NUL, and leaves the bytes after the terminator as they were. Reading the buffer back as a C string gives exactly that cut text. |
| `Materials.MaterialTemplate.AddUniform` | src/materials/nodes/floatNode.cc:53 | `addUniform` appends one fresh entry, returns its index, and leaves the earlier entries and the headers unchanged. |
| `Materials.MaterialTemplate.AddPixelHeader` | src/materials/nodes/floatNode.cc:58 | `addPixelHeader` appends one line after the earlier headers and leaves the uniform table unchanged. |
| `Materials.UniformDeclaration` | src/materials/nodes/floatNode.cc:58 | The header line `uniform vec4 <name>;` parses back to a declaration of exactly `name`. |
| `Materials.PixelReference` | src/materials/nodes/floatNode.cc:62-70 | The reference fits the 64-byte buffer. With a name, it is all of `<name>.x` when that fits, and otherwise exactly its first 63 characters. Without a name, it is the `%f` text of the value, cut to fit. |
| `Materials.ReferenceNamesDeclaredUniform` | src/materials/nodes/floatNode.cc:49-65 | For a non-empty name, the identifier the reference selects `.x` from equals the identifier the header line declares, if and only if the name plus `.x` fits in 63 characters. |
| `Materials.FloatNode.constructor` | src/materials/nodes/floatNode.cc:31-36 | A new node has type `"Float"`, an empty uniform name, value 0.0f, and a fresh 64-character return buffer. |
| `Materials.FloatNode.GeneratePixel` | src/materials/nodes/floatNode.cc:47-60 | With an empty name, the template is untouched, and it may even be null. With a name, exactly one uniform entry is appended, with the backend's `Vec4` handle for the name, count 1 and the node's value. Exactly one header `uniform vec4 <name>;` is appended. Earlier entries and headers are kept. |
| `Materials.FloatNode.GetPixelReference` | src/materials/nodes/floatNode.cc:62-70 | The C string left in the return buffer and returned equals `PixelReference` of the name and value. Settings, return type and flags play no part, the template is unchanged, and only the return buffer is written. |
| `Materials.GenerateThenReference` | src/materials/nodes/floatNode.cc:47-70 | After generation with a name set, the last header declares that name and the last uniform entry carries the backend's handle for it. The reference then selects from that same identifier exactly when the name fits the buffer. |

## Left out

- `initPersistFields` (floatNode.cc:38-45): it registers fields with the engine's reflection system and has no behaviour of its own.
- `src/rendering/renderCamera.h` is not part of this model. It holds declarations without bodies, GPU frame-buffer handles and the render-path registration macros.
- `%f` formatting and the numeric meaning of `F32` are floating-point numerics. They are left uninterpreted, as the `formatF` parameter and as a bit pattern.
- `Graphics::Shader::getUniform` is a foreign backend call. It is modelled as a pure function of name and type, so its handle allocation is not modelled.
- `UniformData::setValue` is not shown. It is modelled as recording the scalar it is given.
- `UniformSet::addUniform` is not shown. It is modelled as appending an entry, with no deduplication by name. It belongs to the template here rather than to a separate uniform-set object, and its fresh entry is taken to have an invalid handle, count 0 and no value. `generatePixel` overwrites all three fields.
- `MaterialTemplate::addPixelHeader` is not shown. It is modelled as taking the already formatted line, with no limit on its length.
- The enumerators of `ReturnType` and the other fields of `MaterialGenerationSettings` are in headers not shown, and this node never reads them.
- `dSprintf` and `dStrlen` belong to the platform layer, which is not part of this model. They are modelled as C99 `vsnprintf` and `strlen`: the output is cut to size−1 characters and always ends in NUL.
- `Materials.FloatNode.GeneratePixel` requires a non-null template whenever the uniform name is set. The source dereferences the template pointer without a check in that case (floatNode.cc:51-53), so a caller must supply one. With an empty name, a null template is allowed, as in the source.
- Graph traversal, cycle detection and combining several nodes are not in the code shown.

/**
 * Shaders: the stage each shader type compiles for, SPIR-V binaries, the
 * compiler's options, and the factory that keeps the shader modules it makes.
 */
module Shaders {
  import opened Outcomes
  import opened Vulkan
  import DebugAssert

  /** `ShaderType`, numbered from `vertex` = 0 to `tesselation_evaluation` = 5. */
  datatype ShaderType = Vertex | Fragment | Geometry | Compute | TesselationControl | TesselationEvaluation

  function ShaderTypeValue(t: ShaderType): int {
    match t
    case Vertex => 0
    case Fragment => 1
    case Geometry => 2
    case Compute => 3
    case TesselationControl => 4
    case TesselationEvaluation => 5
  }

  /** The enumerators are numbered without gaps, so the range check of `compile` admits each of them. */
  lemma ShaderTypesPass(build: DebugAssert.Build, t: ShaderType)
    ensures DebugAssert.IsEnumValidAsWritten(build, ShaderTypeValue(t), 0, 5)
  {
    DebugAssert.RangeTestIntendedForContiguousEnums(build, 0, 5, {0, 1, 2, 3, 4, 5}, ShaderTypeValue(t));
  }

  /** `shaderc_shader_kind`: the stage a GLSL source is compiled for. */
  datatype ShaderKind =
    | VertexKind | FragmentKind | ComputeKind | GeometryKind | TessControlKind | TessEvaluationKind

  /** `get_shader_kind`: one compiler stage per shader type. */
  function GetShaderKind(t: ShaderType): (k: ShaderKind) {
    match t
    case Vertex => VertexKind
    case Compute => ComputeKind
    case Fragment => FragmentKind
    case Geometry => GeometryKind
    case TesselationControl => TessControlKind
    case TesselationEvaluation => TessEvaluationKind
  }

  /** Different shader types compile for different stages, and every stage is reached. */
  lemma ShaderKindsDistinct(a: ShaderType, b: ShaderType, k: ShaderKind)
    ensures GetShaderKind(a) == GetShaderKind(b) <==> a == b
    ensures exists t :: GetShaderKind(t) == k
  {
    match k
    case VertexKind => assert GetShaderKind(Vertex) == k;
    case FragmentKind => assert GetShaderKind(Fragment) == k;
    case ComputeKind => assert GetShaderKind(Compute) == k;
    case GeometryKind => assert GetShaderKind(Geometry) == k;
    case TessControlKind => assert GetShaderKind(TesselationControl) == k;
    case TessEvaluationKind => assert GetShaderKind(TesselationEvaluation) == k;
  }

  /** `CompileOptimization`, numbered `size` = 0, `performance` = 1. */
  datatype CompileOptimization = ForSize | ForPerformance

  function CompileOptimizationValue(o: CompileOptimization): int {
    match o
    case ForSize => 0
    case ForPerformance => 1
  }

  /** A SPIR-V word: `uint32_t`. */
  newtype Word = x: int | 0 <= x < 0x1_0000_0000

  /** `ShaderBinary`: the compiled words for one shader type. */
  class ShaderBinary {
    const shaderType: ShaderType
    var code: seq<Word>

    constructor (shaderType: ShaderType, code: seq<Word>)
      ensures this.shaderType == shaderType && this.code == code
    {
      this.shaderType := shaderType;
      this.code := code;
    }

    predicate Empty()
      reads this
    {
      |code| == 0
    }

    /** `clear`: drops every word, so the binary is empty afterwards. */
    method Clear()
      modifies this`code
      ensures Empty() && code == []
    {
      code := [];
    }
  }

  /** `Shader`: a non-owning shader-module handle, copyable and movable. */
  class Shader {
    const shaderType: ShaderType
    var shader: Handle

    constructor (shaderType: ShaderType, shader: Handle)
      ensures this.shaderType == shaderType && this.shader == shader
    {
      this.shaderType := shaderType;
      this.shader := shader;
    }

    constructor Copy(other: Shader)
      ensures shaderType == other.shaderType && shader == other.shader
    {
      shaderType := other.shaderType;
      shader := other.shader;
    }

    /** The move constructor takes `other`'s handle and leaves `other` invalid. */
    constructor MoveFrom(other: Shader)
      modifies other
      ensures shaderType == other.shaderType && shader == old(other.shader)
      ensures other.shader == Null && !other.IsValid()
    {
      shaderType := other.shaderType;
      shader := other.shader;
      other.shader := Null;
    }

    /** Move assignment: a no-op onto itself, otherwise takes `other`'s handle and leaves `other` invalid. */
    method MoveAssign(other: Shader)
      requires other.shaderType == shaderType
      modifies this, other
      ensures other == this ==> shader == old(shader)
      ensures other != this ==> shader == old(other.shader) && !other.IsValid()
    {
      if other == this {
        return;
      }
      shader := other.shader;
      other.shader := Null;
    }

    /** `is_valid`: the handle is not null. */
    predicate IsValid()
      reads this
    {
      shader != Null
    }
  }

  /** The options `shaderc::CompileOptions` accumulates. */
  datatype OptimizationLevel = LevelZero | LevelSize | LevelPerformance

  /** What `CompileGlslToSpv` returned: the words, or a failure status. */
  datatype CompilationResult = Compiled(words: seq<Word>) | CompilationError

  /**
   * `ShaderCompiler`: options for the shader compiler. Compiling itself is
   * the compiler's business; `Compile` receives its result.
   */
  class ShaderCompiler {
    var macros: seq<(string, string)>
    var debugInfo: bool
    var optimization: OptimizationLevel

    constructor ()
      ensures macros == [] && !debugInfo && optimization == LevelZero
    {
      macros := [];
      debugInfo := false;
      optimization := LevelZero;
    }

    /** `push_macro`: asserts a non-empty name, then adds the definition. */
    method PushMacro(name: string, value: string) returns (r: Result<()>)
      modifies this`macros
      ensures r.Err? <==> |name| == 0
      ensures r.Err? ==> r.error == DebugAssertion && macros == old(macros)
      ensures r.Ok? ==> macros == old(macros) + [(name, value)]
    {
      if |name| == 0 {
        return Err(DebugAssertion);
      }
      macros := macros + [(name, value)];
      return Ok(());
    }

    /** `enable_debug`. */
    method EnableDebug()
      modifies this`debugInfo
      ensures debugInfo
    {
      debugInfo := true;
    }

    /** `optimize`: the matching optimisation level. */
    method Optimize(optimization: CompileOptimization)
      modifies this`optimization
      ensures this.optimization == (if optimization == ForSize then LevelSize else LevelPerformance)
    {
      match optimization
      case ForPerformance => this.optimization := LevelPerformance;
      case ForSize => this.optimization := LevelSize;
    }

    /**
     * `compile`: asserts non-empty source, name and entry point, and turns a
     * failed compilation into an error.
     */
    method Compile(shaderType: ShaderType, source: string, name: string, entry: string, result: CompilationResult)
      returns (r: Result<ShaderBinary>)
      ensures r.Err? <==> |source| == 0 || |name| == 0 || |entry| == 0 || result.CompilationError?
      ensures r.Err? ==> r.error == (if |source| == 0 || |name| == 0 || |entry| == 0 then DebugAssertion else CompilationFailed)
      ensures r.Ok? ==> fresh(r.value) && r.value.shaderType == shaderType && r.value.code == result.words
    {
      if |source| == 0 || |name| == 0 || |entry| == 0 {
        return Err(DebugAssertion);
      }
      if result.CompilationError? {
        return Err(CompilationFailed);
      }
      var binary := new ShaderBinary(shaderType, result.words);
      return Ok(binary);
    }
  }

  /** `vk::ShaderModuleCreateInfo`: the code size in bytes and the words. */
  datatype ShaderModuleCreateInfo = ShaderModuleCreateInfo(codeSize: nat, code: seq<Word>)

  /** `create_shader`'s create info for a binary: four bytes per word. */
  function CreateInfoFor(code: seq<Word>): (info: ShaderModuleCreateInfo)
    ensures info.codeSize % 4 == 0 && info.codeSize / 4 == |code| && info.code == code
  {
    ShaderModuleCreateInfo(|code| * 4, code)
  }

  /** `ShaderFactory`: creates shader modules and keeps them until destroyed. */
  class ShaderFactory {
    const device: Device
    var shaders: set<Handle>

    /** Every kept module is a live handle the device has handed out. */
    ghost predicate Valid()
      reads this, device
    {
      forall h :: h in shaders ==> device.Issued(h)
    }

    constructor (device: Device)
      ensures this.device == device && shaders == {} && Valid()
    {
      this.device := device;
      shaders := {};
    }

    /**
     * `make_shader`: asserts the binary is not empty, creates a module from
     * its words and keeps it.
     */
    method MakeShader(binary: ShaderBinary) returns (r: Result<Shader>, info: Option<ShaderModuleCreateInfo>)
      requires Valid()
      modifies this`shaders, device`nextId
      ensures Valid()
      ensures r.Err? <==> binary.Empty()
      ensures r.Err? ==> r.error == DebugAssertion && info == None && shaders == old(shaders) && device.nextId == old(device.nextId)
      ensures r.Ok? ==>
        && info == Some(CreateInfoFor(binary.code))
        && fresh(r.value) && r.value.shaderType == binary.shaderType && r.value.IsValid()
        && r.value.shader == Live(old(device.nextId)) && r.value.shader !in old(shaders)
        && shaders == old(shaders) + {r.value.shader}
    {
      if binary.Empty() {
        return Err(DebugAssertion), None;
      }
      var createInfo := CreateInfoFor(binary.code);
      var h := device.Create();
      shaders := shaders + {h};
      var shader := new Shader(binary.shaderType, h);
      return Ok(shader), Some(createInfo);
    }

    /** `destroy_shader`: forgets the shader's module; other modules stay. */
    method DestroyShader(shader: Shader)
      modifies this`shaders
      ensures shaders == old(shaders) - {shader.shader}
    {
      shaders := shaders - {shader.shader};
    }
  }
}

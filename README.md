# LavaTensor core in Dafny

LavaTensor is a small reverse-mode automatic-differentiation engine in C++. A strided array (`TensorArray`) holds a shape, row-major strides and a flat buffer. It provides element-wise and scalar arithmetic, matrix multiplication, transposes and axis insertion and removal. `Tensor` pairs a data array with a gradient array and records, per operation, a closure that pushes the upstream gradient into copies of the operands. A family of gradient nodes (`Accumulate`, `Add`, `Sub`, `Mul`, `MM`, `Sum`, `ReLU`, `CrossEntropyLoss`, `Softmax`) forwards gradients along an explicit link graph.

On top of the engine sit the parts of a chess-position classifier:

- a ReLU layer and an SGD optimizer;
- a FEN validator and a FEN-to-one-hot converter;
- the chessboard data-file parser;
- the label and batch logic of training;
- an INI-style network configuration loader;
- the command-line argument parsers;
- a network-file generator, saver and loader (a binary `LAVA` format);
- the Python script that scores the analyser's output against expected states.

The project models each of these in its own module, one file each:

| file | module | models |
|---|---|---|
| wrappers.dfy | Wrappers | Option and Result |
| strided_array.dfy | StridedArray | shapes, strides, offsets and accessors of `TensorArray` |
| array_ops.dfy | ArrayOps | element-wise and scalar operations, truncating division |
| array_shape.dfy | ArrayShape | `transposed`, `transpose`, `unsqueezed`, `removeDim` |
| array_matmul.dfy | ArrayMatmul | `matmul` |
| tensor_array.dfy | TensorArrays | the `TensorArray` class, its loops proved against the functions above |
| tensor.dfy | ClosureTensors | the closure-based `Tensor` class and `backward` |
| grad_nodes.dfy | GradNodes | the gradient-node graph as a datatype, with its backward semantics |
| mm_backward.dfy | MMScratch | the scratch accumulation loops of `MMBackward` |
| node_objects.dfy | NodeObjects | the stateful node classes (`GradNode`, `MMBackward`, `CrossEntropyLossBackward`, `ReLUBackward`) |
| nn.dfy | NeuralNet | `ReLU` and `SGD` |
| fen_validator.dfy | FenValidation | `FenValidator` |
| fen_converter.dfy | FenConversion | `FenConverter` |
| chessboard_parser.dfy | ChessboardParsing | `ChessboardParser::parseChessboardFile` over given lines |
| chess_training.dfy | ChessTraining | `getLabelIndex`, batch partitioning, argmax |
| parsing.dfy | Parsing | the C++ library text functions the sources use: `isspace`, `find`, `getline`, `>>`, `stoi`, `stoul`, `stod`, `to_string` |
| network_config.dfy | NetworkConfiguration | `NetworkConfig` over the file's lines |
| arg_parser.dfy | ArgParsing | `ArgParser` |
| byte_codec.dfy | ByteCodec | little-endian fixed-width fields |
| network_format.dfy | NetworkFormat | `NetworkSaver` and `NetworkLoader` over byte sequences |
| network_generator.dfy | NetworkGeneration | `NetworkGenerator` over byte sequences |
| test_report.dfy | TestReport | `scripts/test.py` |

Every operation that fails in the source does so here through a `Result` or `Option`. Where the source throws, the error value names the exception. In the tensor arrays, `std::out_of_range` is `OutOfRange`, and each `std::logic_error` is named by its reason: `DimensionMismatch` for a wrong number of coordinates, `Unsupported` for a rank the operation refuses, `ShapeMismatch` for differing inner extents, `DivisionByZero` for a zero divisor. The softmax node's "Not implemented" `std::runtime_error` is `NotImplemented`, and the other modules have error datatypes of their own (`ConfigError`, `LoadError`, ...). Where the source's own loop changes state step by step, the model is a method with a loop, proved against a specification function. The properties the sources rely on are lemmas about those functions: the saver/loader round trip, the transpose laws, the gradient rules of every node, the batch cover, and the configuration's key/value round trip.

## Model

| member | source | states |
|---|---|---|
| StridedArray.ProductZero | lib/Tensor/TensorArray.cpp:33-38 | the element count a shape multiplies out to is zero exactly when some extent is zero |
| StridedArray.ProductAppend | lib/Tensor/TensorArray.cpp:33-38 | the element count of two shapes laid end to end is the product of their counts (used when an axis of extent 1 is inserted or removed) |
| StridedArray.RowMajorStep | lib/Tensor/TensorArray.cpp:318-329 | the row-major stride of the last axis is 1 and every other stride is the next stride times the next extent |
| StridedArray.RowMajorMaxOffset | lib/Tensor/TensorArray.cpp:40-42 | with the strides the shape constructor computes, the last coordinate of a non-empty shape addresses the last element of the buffer |
| StridedArray.RowMajorValid | lib/Tensor/TensorArray.cpp:31-42 | a shape with its row-major strides and one element per cell keeps every in-shape coordinate inside the buffer |
| StridedArray.OffsetAtMost | lib/Tensor/TensorArray.cpp:299-315 | no in-shape coordinate is placed beyond the offset of the last coordinate |
| StridedArray.OffsetInBuffer | lib/Tensor/TensorArray.cpp:299-315 | in an array whose strides fit its buffer every in-shape coordinate addresses an element |
| StridedArray.Get | lib/Tensor/TensorArray.cpp:263-280 | the flat accessor returns the element at the index exactly when the index is below the buffer length and raises out_of_range otherwise |
| StridedArray.SetFlat | lib/Tensor/TensorArray.cpp:273-280 | a write through the flat accessor succeeds exactly when the index is below the buffer length and keeps shape and strides |
| StridedArray.SetThenGet | lib/Tensor/TensorArray.cpp:273-280 | after a flat write the written index reads back the new value and every other index reads what it read before |
| StridedArray.Read | lib/Tensor/TensorArray.cpp:283-296 | the const coordinate accessor raises logic_error exactly when the number of coordinates differs from the number of strides; it checks no extent |
| StridedArray.Locate | lib/Tensor/TensorArray.cpp:299-315 | the mutable coordinate accessor succeeds exactly on in-shape coordinates, then at the strided offset inside the buffer; a wrong number of coordinates raises logic_error and a coordinate past its extent out_of_range |
| StridedArray.LocateRead | lib/Tensor/TensorArray.cpp:283-315 | on every in-shape coordinate the const and mutable coordinate accessors address the same element |
| StridedArray.RowMajorOffset2 | lib/Tensor/TensorArray.cpp:40-42 | an m-by-n matrix built by the shape constructor has strides [n, 1], so cell (i, j) is element i n + j |
| ArrayOps.TruncDiv | lib/Tensor/TensorArray.hpp:43-54 | integer division rounds toward zero: the remainder has the sign of the dividend and is smaller than the divisor in magnitude |
| ArrayOps.Apply | lib/Tensor/TensorArray.hpp:40-70 | the four element operators fail only for a division by zero, which both division lambdas refuse |
| ArrayOps.FirstFault | lib/Tensor/TensorArray.cpp:126-137 | the index of the first element whose step raises: every earlier step succeeds and the step at that index (if any) raises |
| ArrayOps.FirstFaultSucceeds | lib/Tensor/TensorArray.cpp:126-137 | the loop runs past the last element exactly when no step raises |
| ArrayOps.Combine | lib/Tensor/TensorArray.cpp:126-137 | a successful element-wise operation keeps the receiver's shape and strides and yields product(shape) elements |
| ArrayOps.CombineOk | lib/Tensor/TensorArray.cpp:126-137 | the element-wise operation succeeds exactly when no step raises, and element i of its result is the operator applied to element i of both operands |
| ArrayOps.CombineFault | lib/Tensor/TensorArray.cpp:126-137 | when the loop raises, the exception is the one raised by the first failing step (a short operand: out_of_range; a zero divisor: the division error) |
| ArrayOps.Broadcast | lib/Tensor/TensorArray.cpp:149-157 | the scalar operand seen as an array holds the scalar at every index |
| ArrayOps.ScalarDivideByZero | lib/Tensor/TensorArray.hpp:59-70 | dividing by the scalar 0 raises the zero-division error exactly when the array has an element |
| ArrayOps.ScalarOk | lib/Tensor/TensorArray.cpp:149-157 | a scalar operation on a valid array with a non-zero divisor succeeds and applies the operator with the scalar to every element |
| ArrayOps.InPlace | lib/Tensor/TensorArray.cpp:114-123 | the in-place loop keeps the buffer length, whether or not it stops on an exception |
| ArrayOps.InPlaceAgrees | lib/Tensor/TensorArray.cpp:114-137 | the in-place operation and the copying operation fail on the same inputs with the same exception, and on success the in-place buffer is the copy's buffer |
| ArrayOps.InPlaceOk | lib/Tensor/TensorArray.cpp:114-123 | the in-place operation completes exactly when no step raises, and then element i is the operator applied to the old element i and the operand's element i |
| ArrayOps.AddThenSubtract | lib/Tensor/TensorArray.hpp:40-41 | adding an array and then subtracting it gives back the original array |
| ArrayOps.ScaleThenDivide | lib/Tensor/TensorArray.hpp:58-70 | multiplying by a non-zero scalar and then dividing by it gives back the original array |
| ArrayOps.TruncDivExact | lib/Tensor/TensorArray.hpp:59-70 | truncating division of a multiple of k by k is exact |
| ArrayShape.Transposed | lib/Tensor/TensorArray.cpp:251-260 | reversing shape and strides in place is refused exactly for arrays that are not matrices |
| ArrayShape.TransposedSwapsAxes | lib/Tensor/TensorArray.cpp:251-260 | reversing a matrix twice restores it, keeps it valid, and reads the reversed matrix at (j, i) where the original is read at (i, j) |
| ArrayShape.Inserted | lib/Tensor/TensorArray.cpp:165 | inserting an axis adds one extent of 1 at the position and keeps the element count |
| ArrayShape.Removed | lib/Tensor/TensorArray.cpp:179 | erasing an axis leaves one extent fewer |
| ArrayShape.Unsqueeze | lib/Tensor/TensorArray.cpp:159-171 | unsqueezed refuses exactly the positions after the last axis; otherwise it adds an axis of extent 1 at the position, keeps the buffer and the element count, and leaves a valid array valid |
| ArrayShape.RemoveDimGuardAdmitsEnd | lib/Tensor/TensorArray.cpp:176 | the guard `dim > size` lets the position one past the last axis through to erase(end()), which names no axis |
| ArrayShape.RemoveDim | lib/Tensor/TensorArray.cpp:174-185 | removeDim, refusing every position that names no axis: otherwise one extent fewer, the extents before the position kept and the later ones shifted down, the buffer unchanged |
| ArrayShape.RemoveDimUndoesUnsqueeze | lib/Tensor/TensorArray.cpp:159-185 | removing the axis that unsqueezed inserted restores the shape, with row-major strides, and the buffer |
| ArrayShape.SetAt | lib/Tensor/TensorArray.cpp:299-315 | a write through the coordinate accessor succeeds exactly on in-shape coordinates and changes only the element at their offset |
| ArrayShape.TransposeTarget | lib/Tensor/TensorArray.cpp:235-240 | the array transpose writes into is valid, with reversed shape and strides and as many elements as the original |
| ArrayShape.Transpose | lib/Tensor/TensorArray.cpp:229-248 | the transpose as written, with the write `result({i, j})`: on success the result is a valid matrix |
| ArrayShape.TransposeRowOk | lib/Tensor/TensorArray.cpp:243-245 | one row of the written loop succeeds exactly when the row and all its columns are in the result's shape |
| ArrayShape.TransposeRowsOk | lib/Tensor/TensorArray.cpp:242-246 | the written double loop succeeds exactly when every visited (i, j) is in the result's shape |
| ArrayShape.TransposeOk | lib/Tensor/TensorArray.cpp:229-248 | the transpose as written succeeds exactly on square or empty matrices; a non-matrix raises logic_error and a non-square non-empty matrix raises out_of_range from the accessor |
| ArrayShape.TransposeFault | lib/Tensor/TensorArray.cpp:242-246 | when the written loop fails it fails with out_of_range |
| ArrayShape.TransposeSquareReadsSame | lib/Tensor/TensorArray.cpp:240-246 | on a square dense matrix the transpose as written succeeds, swaps the strides, and reads at every (i, j) what the original reads at (i, j): it does not transpose |
| ArrayShape.TransposeIntended | lib/Tensor/TensorArray.cpp:229-248 | the transpose with the write `result({j, i})`: on success the result is a valid matrix |
| ArrayShape.TransposeIntendedCorrect | lib/Tensor/TensorArray.cpp:229-248 | the intended transpose succeeds exactly on matrices; its result has the reversed shape and holds at (j, i) the original element (i, j) |
| ArrayShape.TransposeIntendedTwice | lib/Tensor/TensorArray.cpp:229-248 | transposing twice restores the shape and every element |
| ArrayShape.TransposeIntendedAgreesWithTransposed | lib/Tensor/TensorArray.cpp:229-260 | the copying transpose and the in-place transposed read the same element at every coordinate |
| ArrayMatmul.Product2D | lib/Tensor/TensorArray.cpp:204-212 | the product of an m-by-n and an n-by-p matrix is a valid row-major m-by-p array |
| ArrayMatmul.Zeros2 | lib/Tensor/TensorArray.cpp:204 | the accumulator matmul starts from is a valid row-major m-by-p array of zeros |
| ArrayMatmul.Lifted | lib/Tensor/TensorArray.cpp:193-197 | a vector receiver is unsqueezed to a 1-by-n matrix holding the same elements; any other receiver is left alone |
| ArrayMatmul.Matmul | lib/Tensor/TensorArray.cpp:188-217 | matmul leaves a receiver that is not a vector unchanged, leaves every receiver valid, and on success yields a valid matrix |
| ArrayMatmul.MatmulMatrices | lib/Tensor/TensorArray.cpp:201-216 | for two matrices with matching inner extent, matmul succeeds, keeps the receiver, and cell (i, k) of the result is the dot product of row i and column k |
| ArrayMatmul.MatmulFaults | lib/Tensor/TensorArray.cpp:188-203 | two vectors raise; ranks that differ after unsqueezing raise (a vector receiver stays unsqueezed, as the exception skips removeDim); two matrices succeed exactly when the inner extents match; two scalars fail |
| ArrayMatmul.MatmulVector | lib/Tensor/TensorArray.cpp:193-215 | a vector times a matrix yields a 1-by-p product of the dot products, and the receiver keeps its shape and buffer but gets the strides removeDim recomputes |
| ArrayMatmul.ProductSameCells | lib/Tensor/TensorArray.cpp:206-212 | the product loop reads its left operand only through the two-coordinate accessor: left operands that read alike at every cell give the same product, whatever their strides |
| TensorArrays.TensorArray.GetStride | lib/Tensor/TensorArray.cpp:318-329 | the stride of axis k is the product of the extents after k, so 1 for the last axis; an axis past the last gets 1 |
| TensorArrays.TensorArray.SizeOf | lib/Tensor/TensorArray.cpp:33-37 | the size loop computes the product of the extents |
| TensorArrays.TensorArray.OfShape | lib/Tensor/TensorArray.cpp:31-79 | the shape constructor builds row-major strides and product(shape) elements of the chosen fill (zeros, ones, or the index), a valid array |
| TensorArrays.TensorArray.Copy | lib/Tensor/TensorArray.cpp:82-91 | the copy and move constructors carry shape, strides and buffer over unchanged |
| TensorArrays.TensorArray.OfVector | lib/Tensor/TensorArray.cpp:94-97 | the buffer constructor gives a 1-D shape of the buffer length and a single stride of 0 |
| TensorArrays.TensorArray.WithStrides | lib/Tensor/TensorArray.cpp:100-111 | the shape-and-strides constructor keeps the strides given and holds product(shape) zeros |
| TensorArrays.TensorArray.Store | lib/Tensor/TensorArray.cpp:273-280 | a store through the flat accessor changes the array as the flat write does, or raises and changes nothing |
| TensorArrays.TensorArray.InPlaceTensorOperation | lib/Tensor/TensorArray.cpp:114-123 | the in-place loop keeps shape and strides and leaves the buffer and the exception the in-place specification gives, including the prefix already updated when a step raises |
| TensorArrays.TensorArray.InPlaceScalarOperation | lib/Tensor/TensorArray.cpp:140-146 | the in-place scalar loop is the in-place operation against the broadcast scalar |
| TensorArrays.TensorArray.TensorOperation | lib/Tensor/TensorArray.cpp:126-137 | the copying loop returns exactly the element-wise combination, or its first exception |
| TensorArrays.TensorArray.ScalarOperation | lib/Tensor/TensorArray.cpp:149-157 | the copying scalar loop returns exactly the scalar combination |
| TensorArrays.TensorArray.Unsqueezed | lib/Tensor/TensorArray.cpp:159-171 | unsqueezed changes the array as the unsqueeze specification says, or raises and changes nothing |
| TensorArrays.TensorArray.RemoveDim | lib/Tensor/TensorArray.cpp:174-185 | removeDim changes the array as the corrected specification says, or raises and changes nothing |
| TensorArrays.TensorArray.Transposed | lib/Tensor/TensorArray.cpp:251-260 | transposed reverses a matrix in place, or raises and changes nothing |
| TensorArrays.TensorArray.Transpose | lib/Tensor/TensorArray.cpp:229-248 | the element-copying loop returns exactly the transpose as written: logic_error for a non-matrix, out_of_range for a non-square non-empty matrix, the unchanged reading for a square row- or column-major one |
| TensorArrays.TensorArray.TransposeRowLoop | lib/Tensor/TensorArray.cpp:243-245 | the inner loop computes one row of the as-written fold, writing `result({i, j})` and stopping at the first out_of_range |
| TensorArrays.TensorArray.ProductLoop | lib/Tensor/TensorArray.cpp:206-212 | the triple loop on two matrices accumulates exactly the matrix product; with operands of higher rank the two-coordinate accessor raises on the first step |
| TensorArrays.TensorArray.ProductRowLoop | lib/Tensor/TensorArray.cpp:208-210 | the innermost loop adds row i's term j to every column of the accumulator |
| TensorArrays.PartialDone | lib/Tensor/TensorArray.cpp:206-212 | once every row is processed the accumulator is the matrix product |
| TensorArrays.PartialStep | lib/Tensor/TensorArray.cpp:209 | one `+=` step extends the partial sums of cell (i, k) by the term of inner index j and leaves every other cell alone |
| TensorArrays.TensorArray.Matmul | lib/Tensor/TensorArray.cpp:188-217 | the method changes the receiver and returns the product exactly as the matmul specification does |
| StridedArray.RowMajor | lib/Tensor/TensorArray.cpp:40-42 | the shape constructor computes one stride per axis |
| StridedArray.RowMajorTail | lib/Tensor/TensorArray.cpp:318-329 | the strides of a shape without its first axis are the remaining strides of the shape |
| StridedArray.InShapeProduct | lib/Tensor/TensorArray.cpp:307-313 | a shape that admits some coordinate has a non-zero element count |
| ArrayOps.QuotientSigns | lib/Tensor/TensorArray.hpp:43-54 | the truncated quotient leaves a remainder with the dividend's sign, smaller than the divisor |
| ArrayOps.FirstFaultIs | lib/Tensor/TensorArray.cpp:126-137 | an index before which every step succeeds and at which a step raises is the first fault |
| ArrayShape.TransposeRow | lib/Tensor/TensorArray.cpp:243-245 | writing one row of the receiver into the result keeps the result's shape, strides and buffer length |
| ArrayShape.TransposeRows | lib/Tensor/TensorArray.cpp:242-246 | writing the first i rows keeps the result's shape, strides and buffer length |
| ArrayShape.TransposeRowFault | lib/Tensor/TensorArray.cpp:244 | the only exception the as-written row loop raises is out_of_range |
| ArrayShape.RowCells | lib/Tensor/TensorArray.cpp:243-245 | on a square matrix the as-written row loop copies the receiver's (i, j2) to the result's own cell (i, j2) and leaves the other cells |
| ArrayShape.RowsCells | lib/Tensor/TensorArray.cpp:242-246 | on a square matrix the as-written loops copy every processed cell to the same cell of the result |
| ArrayShape.TransposeRowStaysErr | lib/Tensor/TensorArray.cpp:243-245 | once a write of the row loop raises, the loop's outcome is that exception |
| ArrayShape.TransposeRowsStaysErr | lib/Tensor/TensorArray.cpp:242-246 | once a row raises, the outer loop's outcome is that exception |
| ArrayShape.IntendedRowCopies | lib/Tensor/TensorArray.cpp:243-245 | with the intended index order the row loop never raises, keeps earlier copies and copies (i, j2) to (j2, i) |
| ArrayShape.IntendedRowsCopy | lib/Tensor/TensorArray.cpp:242-246 | with the intended index order every processed cell arrives transposed |
| TensorArrays.RowMajorWrite | lib/Tensor/TensorArray.cpp:209 | a write to cell (i, k) of a row-major result changes that cell only |
| TensorArrays.PartialStart | lib/Tensor/TensorArray.cpp:204-206 | the zero-filled result is the starting point of the triple loop |
| TensorArrays.PartialRowDone | lib/Tensor/TensorArray.cpp:207-211 | a finished inner loop moves the middle loop on |
| TensorArrays.PartialNextRow | lib/Tensor/TensorArray.cpp:206-212 | a finished middle loop moves the outer loop to the next row |
| ClosureTensors.Arity | lib/Tensor/Tensor.cpp:58 | an operation keeps one operand copy for a scalar and two for a tensor operand |
| ClosureTensors.ZerosLike | lib/Tensor/Tensor.cpp:22 | the gradient a tensor gets from its data has the data's shape and strides and product(shape) zeros |
| ClosureTensors.Accumulate | lib/Tensor/Tensor.cpp:94 | `_grad += delta` keeps the gradient's shape, strides and length, and a delta that raised leaves the gradient untouched |
| ClosureTensors.RunGradFn | lib/Tensor/Tensor.cpp:89-100 | a closure call changes only the gradients of its operand copies, keeping their data, flags, shapes, strides and lengths, and never touches a copy that does not require grad; the Matmul closure's right part uses `transpose()` as written |
| ClosureTensors.AddSubClosure | lib/Tensor/Tensor.cpp:89-128 | the Add and Sub closures move each tracked gradient by the upstream array element by element: plus on the left, plus (Add) or minus (Sub) on the right |
| ClosureTensors.MulClosure | lib/Tensor/Tensor.cpp:145-156 | the Mul closure adds the upstream array times the other operand's data to each tracked gradient |
| ClosureTensors.DivClosure | lib/Tensor/Tensor.cpp:173-186 | the Div closure adds g / right to the left gradient and subtracts (g left) / (right right) from the right one, with truncating division |
| ClosureTensors.ScalarClosure | lib/Tensor/Tensor.cpp:202-273 | the scalar closures pass the upstream array on unchanged for `+ k` and `- k`, times k for `* k` and divided by k for `/ k` |
| ClosureTensors.MatmulClosureLeft | lib/Tensor/Tensor.cpp:47-51 | the Matmul closure adds the upstream matrix times the right operand to the left gradient |
| ClosureTensors.MatmulClosureRight | lib/Tensor/Tensor.cpp:47-55 | on a square left matrix stored row- or column-major, `transpose()` returns it unchanged, so the right gradient gains A G (not the transpose of A times G); a tracked left gradient first gains G B, an untracked left copy is untouched, and nothing raises |
| ClosureTensors.MatmulClosureRightFaults | lib/Tensor/Tensor.cpp:48-55 | on a non-square, non-empty left matrix the right part raises out_of_range from `transpose()`: the left gradient keeps what the left part did and the right copy is untouched |
| ClosureTensors.Seed | lib/Tensor/Tensor.cpp:310-313 | the seed gradient has the data's shape and strides and holds ones |
| ClosureTensors.LeafBackward | lib/Tensor/Tensor.cpp:304-313 | backward on a copy without closure changes at most its gradient, and only a tracked empty gradient, which becomes the seed |
| ClosureTensors.LeavesBackward | lib/Tensor/Tensor.cpp:319-323 | the loop over the previous tensors applies the leaf backward to each of them, in order |
| ClosureTensors.BackwardSpec | lib/Tensor/Tensor.cpp:304-324 | backward keeps the data and the flag, does nothing without the flag, never changes a result tensor itself, and raises nothing without a closure |
| ClosureTensors.BackwardAfterAdd | lib/Tensor/Tensor.cpp:89-102 | backward on the result of `+` with two tracked operands runs the Add closure without fault and leaves the copies as it wrote them |
| ClosureTensors.BackwardSeedsLeaf | lib/Tensor/Tensor.cpp:310-313 | backward on a tracked tensor without closure and with an empty gradient seeds a gradient of ones with the data's shape and strides |
| ClosureTensors.StatesOf | lib/Tensor/Tensor.cpp:342 | the states of the previous tensors, one per tensor and in order |
| ClosureTensors.Tensor.OfShape | lib/Tensor/Tensor.cpp:11-14 | the shape constructor builds data and gradient alike from the shape, with no closure and no previous tensors |
| ClosureTensors.Tensor.Copy | lib/Tensor/Tensor.cpp:16-19 | the copy constructor copies data and gradient only |
| ClosureTensors.Tensor.OfArray | lib/Tensor/Tensor.cpp:21-24 | a tensor made from an array has a zero gradient of the data's shape and strides |
| ClosureTensors.Tensor.WithFlag | lib/Tensor/Tensor.cpp:26-33 | a tensor made from an array and a flag has a zero gradient and the given flag |
| ClosureTensors.Tensor.CreateWithGrad | lib/Tensor/Tensor.cpp:334-345 | createWithGrad gives a tracked tensor with zero gradient, the given previous tensors and the closure |
| ClosureTensors.Tensor.ZeroGrad | lib/Tensor/Tensor.cpp:326-332 | zeroGrad fills the gradient with zeros when tracked and changes nothing else |
| ClosureTensors.Tensor.Assign | lib/Tensor/Tensor.cpp:61-75 | assignment copies data and gradient and keeps the flag, the closure and the previous tensors |
| ClosureTensors.Tensor.Operate | lib/Tensor/Tensor.cpp:77-189 | a tensor operation succeeds exactly when the element-wise operation does; its result is untracked when neither operand requires grad, and otherwise tracked with the closure and fresh copies of both operands |
| ClosureTensors.Tensor.Tracked | lib/Tensor/Tensor.cpp:86-102 | a tracked result holds the data, the closure and two fresh copies of the operands' data and gradients |
| ClosureTensors.Tensor.OperateScalar | lib/Tensor/Tensor.cpp:191-277 | a scalar operation succeeds exactly when the scalar combination does and is tracked, with one fresh copy, exactly when the receiver is |
| ClosureTensors.Tensor.Matmul | lib/Tensor/Tensor.cpp:35-59 | matmul changes the receiver's data as TensorArray's matmul does, returns its product, and takes the copies after that change |
| ClosureTensors.Tensor.Item | lib/Tensor/Tensor.cpp:291-301 | the flat accessor returns the data element or raises out_of_range |
| ClosureTensors.Tensor.Backward | lib/Tensor/Tensor.cpp:303-324 | backward keeps the tensor valid and changes it and its previous tensors exactly as the backward specification says |
| ClosureTensors.Tensor.RunClosure | lib/Tensor/Tensor.cpp:315-317 | `_gradFn(*this)` called with the tensor's own data changes the copies as the closure specification says |
| ClosureTensors.Tensor.BackwardPrevious | lib/Tensor/Tensor.cpp:319-323 | the loop over the previous tensors leaves each as the leaf backward makes it |
| ClosureTensors.Tensor.BackwardAt | lib/Tensor/Tensor.cpp:320-322 | one step of that loop applies the leaf backward to the copy at that position |
| GradNodes.FillWith | lib/Tensor/autograd/AddBackward.hpp:21-23 | a copy filled by std::fill keeps the layout and holds the fill value at every element |
| GradNodes.Zeros | lib/Tensor/autograd/MMBackward.hpp:23-24 | an array built from a shape and strides holds product(shape) zeros in that layout |
| GradNodes.Mask | lib/Tensor/autograd/ReLUBackward.hpp:19-26 | the ReLU mask is 1 exactly where the input is positive and 0 exactly where it is not |
| GradNodes.ConstructorsWf | lib/Tensor/autograd/GradNode.hpp:30-40 | every node constructor (Accumulate, Add, Sub, Mul, Mul by scalar, MM, Sum, ReLU, CrossEntropyLoss, Softmax) yields a well-formed graph whose links are the operands' nodes in order, a null link for a missing operand |
| GradNodes.LocalBackward | lib/Tensor/autograd/GradNode.hpp:26-28 | a node's own step keeps the leaf table size, the variant and its number of links, and produces one message per link; an MM node's loops write `_newGradB({j, k})` in backward(grad) and `_newGradB({i, j})` in backward() |
| GradNodes.Backward | lib/Tensor/autograd/GradNode.hpp:26-28 | a backward call keeps the graph well formed and the leaf table size, and leaves the node in the state its own step gives |
| GradNodes.Forward | lib/Tensor/autograd/AddBackward.hpp:43-48 | the calls on the links keep the graph well formed and the variant of the calling node |
| GradNodes.Hadamard | lib/Tensor/TensorArray.hpp:42 | the element-wise product keeps the gradient's layout and multiplies element by element |
| GradNodes.TimesIsHadamard | lib/Tensor/TensorArray.hpp:42 | `grad * x` with x at least as long as grad is the element-wise product and raises nothing |
| GradNodes.TimesOnes | lib/Tensor/autograd/AddBackward.hpp:44 | multiplying by the all-ones copy gives the gradient back |
| GradNodes.NegatedOnes | lib/Tensor/autograd/SubBackward.hpp:57 | `ones * (-1)` is the all-minus-ones array |
| GradNodes.TimesMinusOnes | lib/Tensor/autograd/SubBackward.hpp:47 | multiplying by the all-minus-ones array negates the gradient |
| GradNodes.Added | lib/Tensor/autograd/AccumulateBackward.hpp:29 | `x += sign m` keeps x's layout and adds sign times m element by element |
| GradNodes.LeafCall | lib/Tensor/autograd/AccumulateBackward.hpp:27-35 | a call on a leaf runs the in-place addition on that leaf's gradient and keeps the node |
| GradNodes.InPlacePlus | lib/Tensor/TensorArray.cpp:114-123 | `+=` with an operand at least as long as the buffer adds every element and raises nothing |
| GradNodes.AccumulateGrad | lib/Tensor/autograd/AccumulateBackward.hpp:27-30 | backward(grad) on a leaf adds grad into that leaf's gradient and into no other; it raises, with out_of_range, exactly when grad is shorter than the gradient |
| GradNodes.FillAdded | lib/Tensor/autograd/AccumulateBackward.hpp:34 | `x += v` adds v to every element and keeps the layout |
| GradNodes.AccumulatePlain | lib/Tensor/autograd/AccumulateBackward.hpp:32-35 | backward() on a leaf adds 1 to every element of its gradient and never raises |
| GradNodes.AccumulateTwice | lib/Tensor/autograd/AccumulateBackward.hpp:27-30 | two calls on a leaf leave its gradient equal to the old one plus both contributions, and other leaves untouched |
| GradNodes.ForwardLeaf | lib/Tensor/autograd/AddBackward.hpp:43-45 | a present leaf link receives its message added into that leaf, then the remaining links run |
| GradNodes.ForwardNull | lib/Tensor/autograd/AddBackward.hpp:46-48 | a null link is skipped and changes nothing |
| GradNodes.TwoLeafLinks | lib/Tensor/autograd/AddBackward.hpp:41-49 | a node with two leaf links adds the first message into the first leaf and then the second message into the second leaf |
| GradNodes.OneLeafLink | lib/Tensor/autograd/AddBackward.hpp:29-37 | a node whose only present link is its first reaches that leaf alone |
| GradNodes.AddForwardsGrad | lib/Tensor/autograd/AddBackward.hpp:41-49 | AddBackward::backward(grad) adds grad into both leaves, left first |
| GradNodes.AddForwardsOnes | lib/Tensor/autograd/AddBackward.hpp:51-59 | AddBackward::backward() adds 1 to every element of both leaves |
| GradNodes.SubForwardsGrad | lib/Tensor/autograd/SubBackward.hpp:41-49 | SubBackward::backward(grad) adds grad into the left leaf and subtracts it from the right one |
| GradNodes.SubForwardsOnes | lib/Tensor/autograd/SubBackward.hpp:51-59 | SubBackward::backward() adds 1 into the left leaf and subtracts 1 from the right one |
| GradNodes.SubUnaryForwardsLeft | lib/Tensor/autograd/SubBackward.hpp:29-48 | the one-operand SubBackward reaches only its left leaf |
| GradNodes.MulForwardsGrad | lib/Tensor/autograd/MulBackward.hpp:41-49 | MulBackward::backward(grad) adds grad times B's copy into the left leaf and grad times A's copy into the right one |
| GradNodes.MulForwardsCopies | lib/Tensor/autograd/MulBackward.hpp:51-59 | MulBackward::backward() adds B's copy into the left leaf and A's copy into the right one |
| GradNodes.MulScalarForwards | lib/Tensor/autograd/MulBackward.hpp:28-48 | the scalar MulBackward adds grad times k into its leaf and skips the null right link |
| GradNodes.SumForwards | lib/Tensor/autograd/SumBackward.hpp:30-42 | SumBackward sends grad (backward(grad)) or ones (backward()) into its leaf |
| GradNodes.ReLUForwards | lib/Tensor/autograd/ReLUBackward.hpp:30-35 | ReLUBackward::backward(grad) adds grad where the input was positive and nothing elsewhere |
| GradNodes.ReLUForwardsMask | lib/Tensor/autograd/ReLUBackward.hpp:37-42 | ReLUBackward::backward() adds 1 where the input was positive and nothing elsewhere |
| GradNodes.Decremented | lib/Tensor/autograd/CrossEntropyLossBackward.hpp:28 | `_res[target] -= 1` lowers that one entry by 1 and keeps every other |
| GradNodes.CrossEntropyDecrements | lib/Tensor/autograd/CrossEntropyLossBackward.hpp:26-40 | either overload decrements the stored target entry in the node; a target outside the buffer raises out_of_range and changes nothing |
| GradNodes.CrossEntropyForwards | lib/Tensor/autograd/CrossEntropyLossBackward.hpp:26-40 | backward(grad) adds the decremented result times grad into its leaf, backward() the decremented result itself |
| GradNodes.Calls | lib/Tensor/autograd/GradNode.hpp:26-28 | repeated calls keep the graph well formed and the leaf table size |
| GradNodes.CrossEntropyRepeated | lib/Tensor/autograd/CrossEntropyLossBackward.hpp:28 | the decrement is never undone: after n calls the target entry is n lower and no other entry moved |
| GradNodes.SoftmaxFails | lib/Tensor/autograd/SoftmaxBackward.hpp:24-32 | both SoftmaxBackward overloads raise "Not implemented" and change nothing |
| GradNodes.ForwardNulls | lib/Tensor/autograd/GradNode.hpp:35-40 | visiting only null links reaches no node and raises nothing |
| GradNodes.NullLinksReachNothing | lib/Tensor/autograd/GradNode.hpp:35-40 | a node whose links are all null changes only what its own step changes |
| GradNodes.MMTwice | lib/Tensor/autograd/MMBackward.hpp:32-67 | the MM scratch arrays are never reset: after two calls of either overload, A's scratch has gained twice B's row sums and B's scratch each call's own gain, A's column sums for backward(grad) and B's column count times A(i, j) at (i, j) for backward() |
| GradNodes.MMOnce | lib/Tensor/autograd/MMBackward.hpp:32-67 | one call of either overload raises nothing in its loops when they stay inside B and its scratch: A's scratch gains B's row sums, B's scratch gains A's column sums under backward(grad) and B's column count times A(i, j) at (i, j) under backward() |
| GradNodes.MMForwards | lib/Tensor/autograd/MMBackward.hpp:32-49 | MMBackward::backward(grad) runs its scratch loops, then adds grad times the new A gradient into the left leaf and grad times the new B gradient into the right one |
| GradNodes.MMExample | lib/Tensor/autograd/MMBackward.hpp:32-49 | for A = [[1, 2], [3, 4]], B = [[5, 6], [7, 8]] and an all-ones grad, the two zero leaves end as the row sums of B, [[11, 15], [11, 15]], and the column sums of A, [[4, 4], [6, 6]] |
| MMScratch.Locate2 | lib/Tensor/TensorArray.cpp:299-315 | the two-coordinate accessor, when it succeeds, addresses an element inside the buffer |
| MMScratch.Locate2Agrees | lib/Tensor/TensorArray.cpp:299-315 | on arrays whose strides fit their buffer, the two-coordinate accessor is the general coordinate accessor |
| MMScratch.AddAt | lib/Tensor/autograd/MMBackward.hpp:37 | `a({i, j}) += v` keeps the layout and the buffer length when it succeeds |
| MMScratch.Step | lib/Tensor/autograd/MMBackward.hpp:37-38 | one pass of the loop body keeps the layout of both scratch arrays |
| MMScratch.Loop | lib/Tensor/autograd/MMBackward.hpp:34-41 | a loop of no passes changes nothing and raises nothing |
| MMScratch.LoopStays | lib/Tensor/autograd/MMBackward.hpp:34-41 | once a pass raises, later passes never run |
| MMScratch.LoopTracks | lib/Tensor/autograd/MMBackward.hpp:34-41 | passes that each take one closed-form state to the next, without raising, take the first state to the last |
| MMScratch.LoopFaultsAt | lib/Tensor/autograd/MMBackward.hpp:34-41 | the exception of the first failing pass is the outcome of every longer loop |
| MMScratch.LoopKeeps | lib/Tensor/autograd/MMBackward.hpp:34-41 | passes that keep an invariant and never raise leave it holding after any number of passes |
| MMScratch.StepAdds | lib/Tensor/autograd/MMBackward.hpp:37-38 | an in-range pass adds B(j, k) to cell (i, j) of A's scratch and A(i, j) to cell (j, k) of B's, raising nothing |
| MMScratch.KRunAdds | lib/Tensor/autograd/MMBackward.hpp:36-39 | the k loop at (i, j) adds the first k entries of B's row j to cell (i, j) of A's scratch and A(i, j) to the first k cells of row j of B's scratch |
| MMScratch.JRunAdds | lib/Tensor/autograd/MMBackward.hpp:35-40 | the j loop of row i reaches the closed form where each cell of row i of A's scratch has gained its row sum of B |
| MMScratch.IRunAdds | lib/Tensor/autograd/MMBackward.hpp:34-41 | the i loop reaches the closed form for every processed row |
| MMScratch.RunSums | lib/Tensor/autograd/MMBackward.hpp:32-41 | backward(grad)'s loops raise nothing on aligned row-major operands and add to cell (i, j) of A's scratch the sum of B's row j, and to cell (j, k) of B's scratch the sum of A's column j |
| MMScratch.RunTwice | lib/Tensor/autograd/MMBackward.hpp:73-74 | the scratch arrays are members that are never reset, so a second call adds the same sums again |
| MMScratch.RunReadsPastB | lib/Tensor/autograd/MMBackward.hpp:35-37 | when A has more columns than B has rows the read `B({j, k})` at j = B's row count raises out_of_range |
| MMScratch.JRunReadsPastB | lib/Tensor/autograd/MMBackward.hpp:35-37 | the first row's j loop raises out_of_range once it reaches j = B's row count |
| MMScratch.KRunReadsPastB | lib/Tensor/autograd/MMBackward.hpp:36-37 | the k loop at j = B's row count raises out_of_range on its first read of B |
| MMScratch.JRunBeforePastB | lib/Tensor/autograd/MMBackward.hpp:35-37 | every column j below B's row count reads only inside B |
| MMScratch.ExampleJK | lib/Tensor/autograd/MMBackward.hpp:34-41 | on A = [[1, 2], [3, 4]] and B = [[5, 6], [7, 8]] with zero scratch, backward(grad)'s loops leave [[11, 15], [11, 15]] and [[4, 4], [6, 6]] |
| MMScratch.StepAddsIJ | lib/Tensor/autograd/MMBackward.hpp:56-57 | a pass of backward() as written adds A(i, j) to cell (i, j) of B's scratch instead of cell (j, k) |
| MMScratch.RunSumsIJ | lib/Tensor/autograd/MMBackward.hpp:53-60 | backward() as written gives A's scratch the same row sums, but adds p A(i, j) to cell (i, j) of B's scratch, p being B's column count, instead of A's column sums at (j, k) |
| MMScratch.ExampleIJ | lib/Tensor/autograd/MMBackward.hpp:53-60 | on the same example backward() as written leaves [[2, 4], [6, 8]] in B's scratch, which differs from what backward(grad) computes |
| MMScratch.RowMajorMatrixValid | lib/Tensor/TensorArray.cpp:299-315 | a dense row-major matrix has strides that fit its buffer |
| MMScratch.IdxMul | lib/Tensor/TensorArray.cpp:299-315 | the row-major offset of (i, j) in a matrix of n columns is i n + j |
| MMScratch.IdxBound | lib/Tensor/TensorArray.cpp:299-315 | the offset of an in-range (i, j) lies inside an m by n buffer |
| MMScratch.IdxDistinct | lib/Tensor/TensorArray.cpp:299-315 | distinct in-range coordinates have distinct row-major offsets |
| MMScratch.Locate2RowMajor | lib/Tensor/TensorArray.cpp:299-315 | on a dense row-major matrix the accessor returns the row-major offset exactly for in-range coordinates and raises out_of_range otherwise |
| MMScratch.AddCell | lib/Tensor/autograd/MMBackward.hpp:37 | an in-range `+=` on a dense row-major matrix keeps it dense and keeps its shape |
| MMScratch.AddCellAt | lib/Tensor/autograd/MMBackward.hpp:37 | adding v at (i, j) changes cell (i, j) by v and leaves every other cell as it was |
| MMScratch.AddCellZero | lib/Tensor/autograd/MMBackward.hpp:37 | adding zero to a cell leaves the matrix unchanged |
| MMScratch.AddCellTwice | lib/Tensor/autograd/MMBackward.hpp:37 | adding v and then w to one cell is adding v + w |
| MMScratch.AddRow | lib/Tensor/autograd/MMBackward.hpp:38 | adding v to the first k cells of row j keeps a dense matrix of the same shape |
| MMScratch.AddRowCell | lib/Tensor/autograd/MMBackward.hpp:36-39 | adding v to the first k cells of row j changes exactly those cells, each by v |
| MMScratch.RowGains | lib/Tensor/autograd/MMBackward.hpp:35-40 | the closed form of A's scratch after the first j columns of row i keeps a dense matrix of the same shape |
| MMScratch.RowGainsCell | lib/Tensor/autograd/MMBackward.hpp:35-40 | after the first j columns of row i, cell (i, j2) with j2 < j has gained the sum of B's row j2, and no other cell has changed |
| MMScratch.ColGains | lib/Tensor/autograd/MMBackward.hpp:35-40 | the closed form of B's scratch after the first j columns of row i keeps a dense matrix of the same shape |
| MMScratch.ColGainsCell | lib/Tensor/autograd/MMBackward.hpp:35-40 | after the first j columns of row i, every cell of B's scratch row j2 with j2 < j has gained A(i, j2), and no other row has changed |
| MMScratch.AllRowGains | lib/Tensor/autograd/MMBackward.hpp:34-41 | the closed form of A's scratch after the first i rows keeps a dense matrix of the same shape |
| MMScratch.AllRowGainsCell | lib/Tensor/autograd/MMBackward.hpp:34-41 | after the first i rows, each cell (i2, j2) with i2 < i has gained the sum of B's row j2, the others are unchanged |
| MMScratch.AllColGains | lib/Tensor/autograd/MMBackward.hpp:34-41 | the closed form of B's scratch after the first i rows keeps a dense matrix of the same shape |
| MMScratch.AllColGainsCell | lib/Tensor/autograd/MMBackward.hpp:34-41 | after the first i rows, each cell of B's scratch row j2 inside A's columns has gained the sum of A's column j2 over those rows |
| MMScratch.KGain | lib/Tensor/autograd/MMBackward.hpp:36-39 | the closed form of the k loop's state keeps both scratch arrays in their layouts |
| MMScratch.KGainStep | lib/Tensor/autograd/MMBackward.hpp:37-38 | one in-range pass takes the closed form after k passes to the closed form after k + 1, raising nothing |
| MMScratch.JGain | lib/Tensor/autograd/MMBackward.hpp:35-40 | the closed form of the j loop's state keeps both scratch arrays aligned with the operands |
| MMScratch.JGainStep | lib/Tensor/autograd/MMBackward.hpp:36-39 | a full k loop takes the closed form after j columns to the one after j + 1 |
| MMScratch.IGain | lib/Tensor/autograd/MMBackward.hpp:34-41 | the closed form of the i loop's state keeps both scratch arrays aligned with the operands |
| MMScratch.IGainStep | lib/Tensor/autograd/MMBackward.hpp:35-40 | a full j loop takes the closed form after i rows to the one after i + 1 |
| MMScratch.Cells2 | lib/Tensor/autograd/MMBackward.hpp:34-41 | a dense 2 by 2 matrix is determined by its four cells |
| MMScratch.KGainIJ | lib/Tensor/autograd/MMBackward.hpp:55-58 | the closed form of the as-written k loop's state keeps both scratch arrays aligned |
| MMScratch.KGainStepIJ | lib/Tensor/autograd/MMBackward.hpp:56-57 | one pass of backward() as written takes its closed form after k passes to the one after k + 1 |
| MMScratch.KRunAddsIJ | lib/Tensor/autograd/MMBackward.hpp:55-58 | the as-written k loop at (i, j) adds B's row-j prefix sum to A's scratch cell (i, j) and k A(i, j) to B's scratch cell (i, j) |
| MMScratch.RowScaled | lib/Tensor/autograd/MMBackward.hpp:54-59 | adding p times row i of A to the first j cells of row i of B's scratch keeps a dense matrix of the same shape |
| MMScratch.RowScaledCell | lib/Tensor/autograd/MMBackward.hpp:54-59 | that addition changes cell (i, j2) with j2 < j by p A(i, j2) and no other cell |
| MMScratch.AllRowsScaled | lib/Tensor/autograd/MMBackward.hpp:53-60 | adding p times A's first i rows into B's scratch keeps a dense matrix of the same shape |
| MMScratch.AllRowsScaledCell | lib/Tensor/autograd/MMBackward.hpp:53-60 | after the first i rows of backward() as written, B's scratch cell (i2, j2) inside A has gained p A(i2, j2) exactly when i2 < i |
| MMScratch.JGainIJ | lib/Tensor/autograd/MMBackward.hpp:54-59 | the closed form of the as-written j loop's state keeps both scratch arrays aligned |
| MMScratch.JGainStepIJ | lib/Tensor/autograd/MMBackward.hpp:55-58 | a full as-written k loop takes the closed form after j columns to the one after j + 1 |
| MMScratch.JRunAddsIJ | lib/Tensor/autograd/MMBackward.hpp:54-59 | the as-written j loop of row i reaches its closed form, raising nothing |
| MMScratch.IGainIJ | lib/Tensor/autograd/MMBackward.hpp:53-60 | the closed form of the as-written i loop's state keeps both scratch arrays aligned |
| MMScratch.IGainStepIJ | lib/Tensor/autograd/MMBackward.hpp:54-59 | a full as-written j loop takes the closed form after i rows to the one after i + 1 |
| MMScratch.IRunAddsIJ | lib/Tensor/autograd/MMBackward.hpp:53-60 | the as-written i loop reaches its closed form for every processed row, raising nothing |
| NodeObjects.GradNode.constructor | lib/Tensor/autograd/GradNode.hpp:23 | a fresh node has no link |
| NodeObjects.GradNode.AddNextGrad | lib/Tensor/autograd/GradNode.hpp:30-33 | addNextGrad appends one link at the end and keeps the earlier ones |
| NodeObjects.Pass | lib/Tensor/autograd/MMBackward.hpp:37-38 | the loop body on the scratch state computes exactly one pass of the loop specification |
| NodeObjects.KLoop | lib/Tensor/autograd/MMBackward.hpp:36-39 | the k loop computes the k-loop specification, stopping at the first exception |
| NodeObjects.JLoop | lib/Tensor/autograd/MMBackward.hpp:35-40 | the j loop computes the j-loop specification |
| NodeObjects.Loops | lib/Tensor/autograd/MMBackward.hpp:34-41 | the triple loop computes the loop specification on the scratch state |
| NodeObjects.MMBackward.constructor | lib/Tensor/autograd/MMBackward.hpp:19-28 | MMBackward's constructor stores copies of both operands, zero scratch arrays in their layouts, and the links of A and B in that order |
| NodeObjects.MMBackward.ScratchLoops | lib/Tensor/autograd/MMBackward.hpp:34-41 | the member loops change only the scratch arrays, as the loop specification says |
| NodeObjects.MMBackward.Backward | lib/Tensor/autograd/MMBackward.hpp:32-67 | a call of either overload, up to the calls on its links, changes the node and produces the messages as the node specification says, with the `{j, k}` loops for backward(grad) and the `{i, j}` loops for backward() |
| NodeObjects.CrossEntropyLossBackward.constructor | lib/Tensor/autograd/CrossEntropyLossBackward.hpp:19-22 | the constructor stores the input's data, the target and the input's link |
| NodeObjects.CrossEntropyLossBackward.Backward | lib/Tensor/autograd/CrossEntropyLossBackward.hpp:26-40 | a call decrements the stored target entry and produces the message as the node specification says |
| NodeObjects.ReLUBackward.constructor | lib/Tensor/autograd/ReLUBackward.hpp:19-26 | the constructor turns its copy of the input into the 0/1 mask in place and stores the input's link |
| NeuralNet.Rectified | lib/nn/ReLU.hpp:28-31 | each forward output is non-negative, at least its input, and either the input or 0, one output per input |
| NeuralNet.Gated | lib/nn/ReLU.hpp:39-42 | the backward rule keeps a gradient entry exactly where the stored input is positive and sets it to 0 elsewhere |
| NeuralNet.GatedTwice | lib/nn/ReLU.hpp:35-44 | masking twice against the same stored input is masking once |
| NeuralNet.GatedByOutput | lib/nn/ReLU.hpp:21-44 | wherever the forward output is 0 the backward gradient is 0, and everywhere else it passes unchanged |
| NeuralNet.ReLU.constructor | lib/nn/ReLU.hpp:19 | the stored input starts as the one-element tensor of the shape constructor |
| NeuralNet.ReLU.Forward | lib/nn/ReLU.hpp:21-33 | forward stores its input and returns a fresh one-axis array of the rectified inputs |
| NeuralNet.ReLU.Backward | lib/nn/ReLU.hpp:35-44 | backward rewrites the gradient buffer in place to its masked form against the stored input |
| NeuralNet.Clamp | lib/nn/SGD.hpp:41-54 | the clipped gradient lies in [-1, 1]; it is the gradient itself inside that range, 1 above it and -1 below it |
| NeuralNet.Update | lib/nn/SGD.hpp:49-56 | the update moves each parameter by at most the learning rate, against the sign of its gradient for a non-negative rate, and not at all for a zero gradient |
| NeuralNet.StepLayer | lib/nn/SGD.hpp:43-71 | step updates only Linear layers, keeps their gradients and buffer lengths, and leaves every other layer alone |
| NeuralNet.ZeroLayer | lib/nn/SGD.hpp:28-35 | zeroGrad fills both gradient buffers of a Linear layer with zeros at their length and keeps its parameters; other layers stay as they are |
| NeuralNet.StepBounded | lib/nn/SGD.hpp:39-72 | a step moves every weight and every bias by at most the learning rate |
| NeuralNet.StepAfterZeroGrad | lib/nn/SGD.hpp:26-72 | after zeroGrad a step changes nothing |
| NeuralNet.SGD.constructor | lib/nn/SGD.hpp:21-24 | the optimiser keeps the layers and the learning rate it is given |
| NeuralNet.SGD.ZeroGrad | lib/nn/SGD.hpp:26-37 | zeroGrad transforms every layer as the one-layer zeroing does, in order |
| NeuralNet.SGD.UpdateLoop | lib/nn/SGD.hpp:49-56 | the buffer loop computes exactly the clipped update |
| NeuralNet.SGD.Step | lib/nn/SGD.hpp:39-72 | step transforms every layer as the one-layer step does, in order |
| FenValidation.ScanFrom | src/utils/FenValidator.hpp:46-58 | scanning a rank fails only with an empty-square-count error (a digit 0 or 9) or a bad piece character |
| FenValidation.ScanFromAgrees | src/utils/FenValidator.hpp:46-58 | the scan of a rank succeeds exactly when every character is a piece letter or a digit 1 to 8, and then it counts the squares they cover |
| FenValidation.PlacementFrom | src/utils/FenValidator.hpp:42-71 | the rank loop reports only a character error, a wrong square count or a wrong rank count |
| FenValidation.RankCheckOk | src/utils/FenValidator.hpp:46-66 | a rank passes exactly when its characters are valid and cover 8 squares |
| FenValidation.PlacementFromOk | src/utils/FenValidator.hpp:42-71 | the remaining ranks pass exactly when there are 8 ranks and each remaining one passes |
| FenValidation.PlacementOk | src/utils/FenValidator.hpp:36-74 | a placement passes exactly when splitting it on '/' gives 8 ranks, each of 8 squares written with valid characters |
| FenValidation.ValidatePiecePlacement | src/utils/FenValidator.hpp:36-74 | the loops with their rank and square counters return exactly the placement check's outcome |
| FenValidation.ColorCheck | src/utils/FenValidator.hpp:76-82 | the active colour passes exactly for "w" and "b" |
| FenValidation.FirstNonCastling | src/utils/FenValidator.hpp:96-100 | the first position holding a character outside KQkq, every earlier one being inside it |
| FenValidation.CastlingOk | src/utils/FenValidator.hpp:84-102 | castling passes exactly for "-" and for strings of distinct characters from KQkq |
| FenValidation.DuplicateBeforeInvalid | src/utils/FenValidator.hpp:90-99 | the duplicate test runs before the character test: "KKx" is reported as a duplicate, "Kx" as an invalid character |
| FenValidation.EnPassantCheck | src/utils/FenValidator.hpp:104-114 | the en passant field passes exactly for "-" or a file a to h followed by rank 3 or 6 |
| FenValidation.HalfmoveCheck | src/utils/FenValidator.hpp:116-127 | the halfmove clock passes exactly when stoi reads a value of at least 0 |
| FenValidation.FullmoveCheck | src/utils/FenValidator.hpp:129-140 | the fullmove number passes exactly when stoi reads a positive value |
| FenValidation.ClockPrefix | src/utils/FenValidator.hpp:116-140 | clocks are read by their integer prefix, so a number followed by anything passes and a leading letter fails |
| FenValidation.FenAccepted | src/utils/FenValidator.hpp:143-220 | a FEN string is accepted exactly when its trimmed form splits into six fields that all pass with one king per side |
| FenValidation.EmptyExactlyBlank | src/utils/FenValidator.hpp:145-154 | the empty-string error is reported exactly for text made of whitespace only |
| FenValidation.CountConcat | src/utils/FenValidator.hpp:205-206 | counting kings distributes over concatenation |
| FenValidation.PlacementOfRanks | src/utils/FenValidator.hpp:36-74 | eight passing ranks joined with '/' make a passing placement |
| FenValidation.JoinedWords | src/utils/FenValidator.hpp:145-164 | words joined by single spaces need no trimming and split back into the same words |
| FenValidation.JoinedFenCheck | src/utils/FenValidator.hpp:143-220 | words joined by single spaces are accepted exactly when they are six fields that all pass |
| FenValidation.FenOfFields | src/utils/FenValidator.hpp:143-220 | six passing fields written with single spaces make an accepted FEN string |
| FenValidation.ValidateFen | src/utils/FenValidator.hpp:143-220 | the trimming loops and the field checks return exactly the FEN check's outcome |
| FenValidation.ValidateCastlingRights | src/utils/FenValidator.hpp:84-102 | the loop over the characters returns exactly the castling check's outcome |
| FenConversion.GetFenBoard | src/utils/FenConverter.cpp:30-33 | the board field is the longest prefix of the FEN without a space, ending just before the first space when there is one |
| FenConversion.PieceIndex | src/utils/FenConverter.cpp:35-65 | each piece letter gets its own slot, white letters 0 to 5 and black letters 6 to 11, and every other character -1 |
| FenConversion.PieceIndexOfLetter | src/utils/FenConverter.cpp:35-65 | slot i is the index of the i-th letter of KQRBNPkqrbnp |
| FenConversion.Expand | src/utils/FenConverter.cpp:76-84 | a digit stands for that many empty squares and any other character for one square with its slot |
| FenConversion.Board | src/utils/FenConverter.cpp:69 | the encoded board has 64 times 12 entries, each 0 or 1 |
| FenConversion.BoardAt | src/utils/FenConverter.cpp:81 | entry 12 sq + p is set exactly when square sq holds piece p |
| FenConversion.OneHot | src/utils/FenConverter.cpp:79-83 | at most one slot of each square is set |
| FenConversion.BoardPad | src/utils/FenConverter.cpp:77 | empty squares at the end change no entry |
| FenConversion.BoardPlace | src/utils/FenConverter.cpp:79-83 | a piece on the next square sets exactly its own slot of that square |
| FenConversion.PaintRank | src/utils/FenConverter.cpp:75-85 | the character loop over one rank turns the board of the squares so far into the board with that rank's squares added |
| FenConversion.RankStep | src/utils/FenConverter.cpp:75-85 | one character's squares continue the rank, and a piece lands on one of the 64 squares |
| FenConversion.PaintSquare | src/utils/FenConverter.cpp:76-84 | one character skips the squares of a digit or sets its piece's slot and moves on one square |
| FenConversion.ConvertBoard | src/utils/FenConverter.cpp:67-88 | the converted board is the one-hot encoding of the squares the board field describes |
| FenConversion.RankCellsLength | src/utils/FenConverter.cpp:75-85 | a rank describes as many squares as its characters cover |
| FenConversion.RowsCellsLength | src/utils/FenConverter.cpp:74-86 | ranks of 8 squares each describe 8 squares per rank |
| FenConversion.AcceptedPlacementFits | src/utils/FenConverter.cpp:67-88 | a placement the validator accepts describes exactly the 64 squares, so every piece lands on the board |
| FenConversion.OccupiedConcat | src/utils/FenConverter.cpp:74-86 | the pieces of two runs of squares add up |
| FenConversion.RankOccupied | src/utils/FenConverter.cpp:75-85 | a piece occupies as many squares of a rank as its letter occurs in it |
| FenConversion.ExpandOccupied | src/utils/FenConverter.cpp:76-84 | one character places piece c once if it is c and otherwise not at all |
| FenConversion.EmptyOccupied | src/utils/FenConverter.cpp:77 | empty squares hold no piece |
| FenConversion.RowsOccupied | src/utils/FenConverter.cpp:74-86 | a piece occupies as many squares of the ranks as its letter occurs in them |
| FenConversion.SplitCount | src/utils/FenConverter.cpp:74 | splitting at '/' keeps the count of every piece letter |
| FenConversion.PieceCount | src/utils/FenConverter.cpp:67-88 | a piece letter occurs in the placement as often as the piece occupies a square of the board |
| FenConversion.AcceptedBoard | src/utils/FenValidator.hpp:204-212 | the board of an accepted FEN has 64 squares and exactly one king of each colour |
| FenConversion.LabelKeys | src/utils/FenConverter.cpp:16-23 | the label table's keys are exactly the six labels, label i standing for class i |
| FenConversion.ConvertBoardLabel | src/utils/FenConverter.cpp:90-113 | a label converts to a class from -1 to 5, and to -1 exactly when it is empty or unknown and mentions neither Stalemate nor Nothing |
| FenConversion.KeyLetters | src/utils/FenConverter.cpp:16-23 | only the Stalemate label contains 'S' and only the Nothing label contains 'N' |
| FenConversion.LabelsConvert | src/utils/FenConverter.cpp:90-113 | each of the six labels converts to its own class number |
| FenConversion.StalemateAnyColour | src/utils/FenConverter.cpp:97-100 | any label mentioning Stalemate is class 4, whatever colour it names |
| ChessboardParsing.Extract | src/utils/ChessboardParser.hpp:40-46 | at most k components are extracted, each a whitespace-free word, and a stream that ran dry leaves nothing unread |
| ChessboardParsing.ExtractTokens | src/utils/ChessboardParser.hpp:40-46 | the extracted components are the line's first k whitespace-separated tokens |
| ChessboardParsing.LineResultCases | src/utils/ChessboardParser.hpp:32-65 | a line is passed over exactly when it is empty or starts with '#', rejected with the validator's error exactly when its FEN fails, and otherwise turned into its record |
| ChessboardParsing.Outcomes | src/utils/ChessboardParser.hpp:32 | one outcome per line |
| ChessboardParsing.JoinSnoc | src/utils/ChessboardParser.hpp:42-45 | appending a component extends the FEN text by a space and the component |
| ChessboardParsing.FenBoardOfJoin | src/utils/FenConverter.cpp:30-33 | the board field of components joined by spaces is the first component |
| ChessboardParsing.AcceptedLine | src/utils/ChessboardParser.hpp:53-61 | an accepted line has six passing components, and its board describes the 64 squares with one king of each colour |
| ChessboardParsing.ReadFen | src/utils/ChessboardParser.hpp:40-46 | the component loop builds exactly the line's FEN text |
| ChessboardParsing.ParseLine | src/utils/ChessboardParser.hpp:33-65 | the loop body computes exactly the line's outcome |
| ChessboardParsing.ParseChessboardFile | src/utils/ChessboardParser.hpp:27-68 | the line loop returns exactly the collection of the line outcomes, ending at the first rejected line |
| ChessboardParsing.CollectStep | src/utils/ChessboardParser.hpp:32-66 | one step of the loop: a rejected line ends the parse with its 1-based number, a parsed line is appended, a passed line is skipped |
| ChessboardParsing.CollectFrom | src/utils/ChessboardParser.hpp:27-32 | before the first line the parse has collected no record |
| ChessboardParsing.CollectEnd | src/utils/ChessboardParser.hpp:66-68 | once every line is consumed without a rejection, the parse returns exactly the records collected |
| ChessboardParsing.CollectOk | src/utils/ChessboardParser.hpp:27-68 | the parse succeeds exactly when no line is rejected, and then returns every record in line order |
| ChessboardParsing.CollectErr | src/utils/ChessboardParser.hpp:53-58 | a failed parse names the first rejected line, 1-based, with its error and its FEN text |
| ChessboardParsing.RecordBoard | src/utils/ChessboardParser.hpp:61-64 | a record's encoding covers 64 squares with one king of each colour, and its label is a class from -1 to 5, left at 0 without outcome text |
| ChessTraining.LabelIndex | src/analyzer/training/chessTraining.cpp:24-34 | a label maps to one of the six classes 0 to 5 |
| ChessTraining.CheckmateIsCheck | src/analyzer/training/chessTraining.cpp:26-28 | a label mentioning Checkmate also mentions Check, so the Checkmate test must come first |
| ChessTraining.CheckmateWhite | src/analyzer/training/chessTraining.cpp:26-27 | a label mentioning Checkmate and then White is class 0 |
| ChessTraining.CheckmateBlack | src/analyzer/training/chessTraining.cpp:26-27 | a label mentioning Checkmate and not White is class 1 |
| ChessTraining.CheckWhite | src/analyzer/training/chessTraining.cpp:28-29 | a label mentioning Check and White but not Checkmate is class 2 |
| ChessTraining.CheckBlack | src/analyzer/training/chessTraining.cpp:28-29 | a label mentioning Check but neither Checkmate nor White is class 3 |
| ChessTraining.StalemateClass | src/analyzer/training/chessTraining.cpp:30-31 | a label mentioning Stalemate but not Check is class 4 |
| ChessTraining.OtherClass | src/analyzer/training/chessTraining.cpp:33 | any other label is class 5 |
| ChessTraining.LabelIndexAgrees | src/analyzer/training/chessTraining.cpp:24-34 | on each of the six table labels the training class agrees with the converter's label table |
| ChessTraining.LabelClass | src/analyzer/training/chessTraining.cpp:24-34 | label i of the table is class i |
| ChessTraining.CheckmateWhiteLabel | src/analyzer/training/chessTraining.cpp:27 | "Checkmate White" is class 0 |
| ChessTraining.CheckmateBlackLabel | src/analyzer/training/chessTraining.cpp:27 | "Checkmate Black" is class 1 |
| ChessTraining.CheckWhiteLabel | src/analyzer/training/chessTraining.cpp:29 | "Check White" is class 2 |
| ChessTraining.CheckBlackLabel | src/analyzer/training/chessTraining.cpp:29 | "Check Black" is class 3 |
| ChessTraining.StalemateLabel | src/analyzer/training/chessTraining.cpp:31 | "Stalemate" is class 4 |
| ChessTraining.Range | src/analyzer/training/chessTraining.cpp:50-51 | the index vector holds start, start + 1, ... in order |
| ChessTraining.Batches | src/analyzer/training/chessTraining.cpp:86-91 | the batches visit every sample index exactly once and in order; each batch is non-empty and at most the batch size, and all but the last are full |
| ChessTraining.PredictedClass | src/analyzer/training/chessTraining.cpp:108-116 | the predicted class is the first index holding the largest output |
| ChessTraining.FirstMaxUnique | src/analyzer/training/chessTraining.cpp:108-116 | the first index of the maximum is unique |
| Parsing.DigitValue | src/utils/FenValidator.hpp:47-48 | a digit character stands for a value from 0 to 9 |
| Parsing.ContainsInfix | src/analyzer/training/chessTraining.cpp:26 | `find` succeeds on any text built around the searched word |
| Parsing.NoContains | src/analyzer/training/chessTraining.cpp:26-33 | `find` fails on a text lacking one of the word's characters |
| Parsing.IndexOf | src/utils/FenConverter.cpp:32 | the position found is the first occurrence of the character, or the length when there is none |
| Parsing.IndexOfFirst | src/utils/NetworkConfig.hpp:79 | any position before which the character is absent and at which it occurs is the one `find` returns |
| Parsing.SplitOn | src/utils/FenValidator.hpp:42 | the `getline` pieces hold no delimiter, and there are none exactly for empty text |
| Parsing.JoinSplit | src/utils/FenValidator.hpp:42 | the pieces joined by the delimiter give back the text, unless it ended in the delimiter |
| Parsing.JoinEnds | src/utils/NetworkConfig.hpp:150 | a join starts with its first piece and ends with its last |
| Parsing.SplitCons | src/utils/FenConverter.cpp:74 | a delimiter-free piece before the delimiter is the first piece returned |
| Parsing.SplitOfJoin | src/utils/NetworkConfig.hpp:150-151 | delimiter-free pieces, the last not empty, are what splitting their join returns |
| Parsing.WordLen | src/utils/FenValidator.hpp:160 | a word extracted with `>>` is the leading run of non-space characters |
| Parsing.Tokens | src/utils/FenValidator.hpp:160 | every extracted token is a non-empty word without whitespace |
| Parsing.TokensOfJoin | src/utils/FenValidator.hpp:160-162 | words joined by single spaces are extracted back in order |
| Parsing.WordAlone | src/utils/ChessboardParser.hpp:41 | a word followed by nothing or a space is the first token |
| Parsing.WordLenOf | src/utils/FenValidator.hpp:160 | a non-space run before nothing or a space is exactly the extracted length |
| Parsing.TrimStart | src/utils/FenValidator.hpp:145-147 | the trimmed text starts with no space and only spaces were removed |
| Parsing.TrimStartSuffix | src/utils/FenValidator.hpp:145-147 | what trimming the front keeps is a suffix of the input |
| Parsing.TrimEnd | src/utils/FenValidator.hpp:148-150 | the trimmed text ends with no space and only spaces were removed |
| Parsing.DigitRun | src/utils/FenValidator.hpp:119 | the leading run of digits ends at the first non-digit |
| Parsing.StoI | src/utils/FenValidator.hpp:119 | `stoi` yields a value exactly when a number is read and fits a 32-bit int |
| Parsing.StoUL | src/utils/NetworkConfig.hpp:144 | `stoul` yields a value exactly when a number is read whose magnitude fits 64 bits |
| Parsing.Decimal | src/utils/FenValidator.hpp:50 | `to_string` of a natural number is a non-empty string of digits |
| Parsing.DigitsValueDecimal | src/utils/FenValidator.hpp:50 | reading back the rendering of a number gives the number |
| Parsing.DigitRunAll | src/utils/FenValidator.hpp:119 | a digit string before a non-digit is the whole leading run |
| Parsing.IntegerPrefix | src/utils/FenValidator.hpp:119 | the integer conversions read a leading rendering and ignore what follows it |
| Parsing.StoIDecimal | src/utils/FenValidator.hpp:119 | `stoi` reads back every non-negative int's rendering, with any non-digit suffix |
| Parsing.StoULDecimal | src/utils/NetworkConfig.hpp:144 | `stoul` reads back every rendering below 2^64, with any non-digit suffix |
| Parsing.NoDigitNoNumber | src/utils/FenValidator.hpp:119-121 | a text without a digit fails both integer conversions |
| Parsing.StoDDecimal | src/utils/NetworkConfig.hpp:161 | `stod` reads every rendered natural number exactly, and its negation |
| Parsing.StoDDigits | src/utils/NetworkConfig.hpp:161 | a rendering read as unsigned number text is the number |
| Parsing.StoDMinus | src/utils/NetworkConfig.hpp:161 | with no blank or sign in front, `stod` reads the unsigned number, and a minus in front negates it |
| NetworkConfiguration.HiddenSizes | src/utils/NetworkConfig.hpp:147-152 | the only error is a piece that is not a number |
| NetworkConfiguration.HiddenSizesConvert | src/utils/NetworkConfig.hpp:147-152 | the sizes exist exactly when every piece converts, one value per piece in order; otherwise the error names a piece that does not |
| NetworkConfiguration.Pushed | src/utils/NetworkConfig.hpp:148-152 | the loop pushes at most one size per piece |
| NetworkConfiguration.PushedConverts | src/utils/NetworkConfig.hpp:148-152 | the pushed sizes are the conversions of the leading pieces, in order, and the piece after them, if any, is one `stoul` refuses |
| NetworkConfiguration.PushedAgrees | src/utils/NetworkConfig.hpp:148-152 | on success every piece is pushed and the pushed sizes are the result; on failure the error names the piece right after the pushed ones |
| NetworkConfiguration.PushedStep | src/utils/NetworkConfig.hpp:150-151 | pushing a piece either ends the pushes or moves one piece on |
| NetworkConfiguration.ArchitectureKey | src/utils/NetworkConfig.hpp:141-156 | unknown keys change nothing, and `hidden_sizes` appends the converted pieces or is the error of a piece that does not convert |
| NetworkConfiguration.ArchitectureAfter | src/utils/NetworkConfig.hpp:141-156 | the architecture `_parseArchitecture` leaves: the update on success; on an error the old one, except that a failing `hidden_sizes` value keeps the pieces pushed before it |
| NetworkConfiguration.HyperparameterKey | src/utils/NetworkConfig.hpp:158-173 | unknown keys change nothing, and the activation is kept as written |
| NetworkConfiguration.InitializationKey | src/utils/NetworkConfig.hpp:175-192 | an enumerator changes only for its own key and one of its recognised names |
| NetworkConfiguration.SchedulerKey | src/utils/NetworkConfig.hpp:194-207 | unknown keys change nothing, and the scheduler type is kept as written |
| NetworkConfiguration.KeyValue | src/utils/NetworkConfig.hpp:128-139 | an unknown section changes nothing, only the named section's part can change, initialization never fails, and the only error is a number that did not convert |
| NetworkConfiguration.ConfigAfter | src/utils/NetworkConfig.hpp:128-139 | the configuration `_parseKeyValue` leaves: the update on success; on an error the old one except for hidden sizes already pushed |
| NetworkConfiguration.SectionName | src/utils/NetworkConfig.hpp:74-76 | the section is the text after '[' up to but excluding the first ']' |
| NetworkConfiguration.Validate | src/utils/NetworkConfig.hpp:209-243 | validation passes exactly when the configuration conforms, and a batch-size error means every earlier check passed |
| NetworkConfiguration.FromLines | src/utils/NetworkConfig.hpp:60-89 | every loaded configuration conforms to the validation rules |
| NetworkConfiguration.GetSetting | src/utils/NetworkConfig.hpp:111-120 | a value is returned exactly for the four scheduler keys, and any other pair is an error naming section and key |
| NetworkConfiguration.SectionOfHeader | src/utils/NetworkConfig.hpp:74-76 | a header `[name]...` selects the section `name`, whatever follows |
| NetworkConfiguration.KeyValueLine | src/utils/NetworkConfig.hpp:79-84 | a `key=value` line passes the text before its first '=' and all after it to the section's parser |
| NetworkConfiguration.PlainLineIgnored | src/utils/NetworkConfig.hpp:79-80 | a line without '=' that is not a header leaves section and configuration unchanged |
| NetworkConfiguration.LoadAppend | src/utils/NetworkConfig.hpp:70-85 | loading a longer file continues from where loading its first lines stopped |
| NetworkConfiguration.LoadShift | src/utils/NetworkConfig.hpp:70-85 | the loop's result depends only on the lines still ahead |
| NetworkConfiguration.EmptyFileRejected | src/utils/NetworkConfig.hpp:211-213 | an empty file keeps the defaults and is rejected for its input size |
| NetworkConfiguration.SchedulerRoundTrip | src/utils/NetworkConfig.hpp:194-207 | a scheduler key set and then read back gives the value written, converted |
| NetworkConfiguration.NetworkConfig.constructor | src/utils/NetworkConfig.hpp:31-58 | a new configuration holds the declared defaults |
| NetworkConfiguration.NetworkConfig.ParseHiddenSizes | src/utils/NetworkConfig.hpp:147-152 | on success the converted sizes are appended to the hidden sizes; on a piece that does not convert the error names it, and the pieces before it stay pushed |
| NetworkConfiguration.NetworkConfig.PushSizes | src/utils/NetworkConfig.hpp:148-152 | the `getline` loop pushes every piece `stoul` converts, in order, and stops with the error of the first piece it refuses; nothing but the hidden sizes changes |
| NetworkConfiguration.NetworkConfig.ParseArchitecture | src/utils/NetworkConfig.hpp:141-156 | the object's architecture becomes the key's update and nothing else changes; an error leaves the architecture as ArchitectureAfter says |
| NetworkConfiguration.NetworkConfig.ParseHyperparameters | src/utils/NetworkConfig.hpp:158-173 | the object's hyperparameters become the key's update, nothing else changes |
| NetworkConfiguration.NetworkConfig.ParseInitialization | src/utils/NetworkConfig.hpp:175-192 | the object's initialization becomes the key's update, nothing else changes |
| NetworkConfiguration.NetworkConfig.ParseLRScheduler | src/utils/NetworkConfig.hpp:194-207 | the object's scheduler becomes the key's update, nothing else changes |
| NetworkConfiguration.NetworkConfig.ParseKeyValue | src/utils/NetworkConfig.hpp:128-139 | the object takes the section's update, or the error with the state ConfigAfter gives |
| NetworkConfiguration.NetworkConfig.CheckValid | src/utils/NetworkConfig.hpp:209-243 | the object is checked in the source's order, the first failure reported |
| NetworkConfiguration.NetworkConfig.GetValue | src/utils/NetworkConfig.hpp:111-120 | reads the object's settings as `getValue` does |
| NetworkConfiguration.FromFile | src/utils/NetworkConfig.hpp:60-89 | a fresh object holding the loaded configuration, or the loading error |
| ArgParsing.ParseGeneratorArgs | src/utils/ArgParser.hpp:28-50 | a wrong argument count is the usage error; otherwise success exactly when every count is a positive number, returning the (config file, count) pairs in argument order, else "Invalid number of networks" |
| ArgParsing.ReadPair | src/utils/ArgParser.hpp:37-47 | pair k is read exactly when its count converts to a positive int, and then it is the file name with that count |
| ArgParsing.ReadPairs | src/utils/ArgParser.hpp:36-48 | the loop succeeds exactly when every count is positive, returning every pair in order; its only error is the invalid count |
| ArgParsing.StoredSnoc | src/utils/ArgParser.hpp:47 | storing the next valid pair keeps the loop invariant |
| ArgParsing.StoredAll | src/utils/ArgParser.hpp:36-49 | once every pair is stored, every count was positive and the pairs are those of the vector |
| ArgParsing.ParseAnalyzerArgs | src/utils/ArgParser.hpp:52-87 | fewer than four arguments is the usage error; a first argument other than `--predict`/`--train` is the mode error; the files are missing exactly for `--train --save F X`; otherwise the mode, the save file taken only when two arguments follow it, and the load and input files that come next |
| ByteCodec.Pow256 | src/utils/NetworkSaver.hpp:56-62 | the range of a w-byte field is positive |
| ByteCodec.LittleEndian | src/utils/NetworkSaver.hpp:37 | a w-byte field is w bytes long |
| ByteCodec.FromLittleEndian | src/utils/NetworkLoader.hpp:32 | the value read from a field fits its width |
| ByteCodec.LittleEndianRoundTrip | src/utils/NetworkLoader.hpp:32 | reading back a field written with a value that fits gives the value |
| ByteCodec.U32 | src/utils/NetworkSaver.hpp:58 | a `uint32_t` field is four bytes |
| ByteCodec.U64 | src/utils/NetworkSaver.hpp:59 | a `uint64_t` field is eight bytes |
| ByteCodec.U32RoundTrip | src/utils/NetworkSaver.hpp:34 | a 32-bit field reads back as the value modulo 2^32, the truncation of the `uint32_t` store |
| ByteCodec.U64RoundTrip | src/utils/NetworkSaver.hpp:33 | a 64-bit field reads back as the value modulo 2^64 |
| ByteCodec.U32At | src/utils/NetworkLoader.hpp:39 | a 32-bit field read at an offset is below 2^32 |
| ByteCodec.Words | src/utils/NetworkSaver.hpp:105-109 | a buffer of doubles is written as eight bytes per element |
| ByteCodec.WordBytes | src/utils/NetworkSaver.hpp:106 | element k of a buffer occupies bytes 8k to 8k + 8 |
| ByteCodec.ReadWords | src/utils/NetworkLoader.hpp:101-105 | reading n doubles gives n values |
| ByteCodec.WordsRoundTrip | src/utils/NetworkLoader.hpp:101-105 | a written buffer reads back element for element, whatever follows |
| ByteCodec.WordsAt | src/utils/NetworkLoader.hpp:101-105 | a buffer at a file position reads back and leaves the position just after it |
| ByteCodec.SuffixAfter | src/utils/NetworkLoader.hpp:39 | after consuming a record the file continues with what followed it |
| ByteCodec.Zeros | src/utils/NetworkSaver.hpp:35 | the zero padding has the requested length |
| ByteCodec.Take | src/utils/NetworkLoader.hpp:32 | a read returns the requested number of bytes: the file's bytes when they are there |
| ByteCodec.Advance | src/utils/NetworkLoader.hpp:39 | a complete read moves the position by its size; an incomplete one stays inside the file or stays put |
| NetworkFormat.FoldWraps | src/utils/NetworkSaver.hpp:77-87 | the hash with 64-bit wrap-around is the exact polynomial hash modulo 2^64 |
| NetworkFormat.ModMultiple | src/utils/NetworkSaver.hpp:82-83 | adding a multiple of 2^64 does not change a 64-bit value |
| NetworkFormat.FoldAppend | src/utils/NetworkSaver.hpp:80-85 | hashing a longer dimension list continues from the hash of its prefix |
| NetworkFormat.DimsSnoc | src/utils/NetworkSaver.hpp:80-84 | a Linear layer contributes its two dimensions to the hash, other layers nothing |
| NetworkFormat.SaverArchHash | src/utils/NetworkSaver.hpp:77-87 | the loop computes 31-polynomial hash of the Linear dimensions modulo 2^64, below 2^64 |
| NetworkFormat.HashStep | src/utils/NetworkSaver.hpp:81-84 | one layer of the hash loop, with the wrap-around after each multiply-add |
| NetworkFormat.HashValue | src/utils/NetworkSaver.hpp:77-87 | the hash of any dimension list is the exact polynomial modulo 2^64 |
| NetworkFormat.FoldPair | src/utils/NetworkSaver.hpp:82-83 | two dimensions fold in as two wrapped multiply-adds |
| NetworkFormat.FoldBound | src/utils/NetworkSaver.hpp:79-86 | the hash stays below 2^64 |
| NetworkFormat.HeaderBytes | src/utils/NetworkSaver.hpp:30-37 | the file header is 32 bytes |
| NetworkFormat.CodeBytes | src/utils/NetworkSaver.hpp:53-68 | the layer type codes and the version are little-endian `uint32_t` fields |
| NetworkFormat.LayerHeaderBytes | src/utils/NetworkSaver.hpp:70-75 | a layer header is 16 bytes |
| NetworkFormat.Record | src/utils/NetworkSaver.hpp:94-122 | a layer record is its 16-byte header, plus eight bytes per weight and bias for a Linear layer |
| NetworkFormat.SaveNetwork | src/utils/NetworkSaver.hpp:23-50 | the bytes written are the header followed by every layer's record |
| NetworkFormat.WriteLayers | src/utils/NetworkSaver.hpp:39-47 | the loop writes the layers' records in order |
| NetworkFormat.ValidateHeader | src/utils/NetworkLoader.hpp:84-95 | a header passes exactly when magic, version and a non-zero layer count are right, each failure named in the order checked |
| NetworkFormat.ReadLinear | src/utils/NetworkLoader.hpp:97-108 | a Linear layer read has the header's sizes, inputs times outputs weights and one bias per output; the only error is a truncated file |
| NetworkFormat.ReadLayer | src/utils/NetworkLoader.hpp:38-53 | a layer read stays inside the file; its errors are an unknown type or truncation |
| NetworkFormat.LoadLayers | src/utils/NetworkLoader.hpp:37-54 | loading n layers gives n layers |
| NetworkFormat.Load | src/utils/NetworkLoader.hpp:23-57 | a loaded network needs an open file with a valid header, and has exactly the layer count it declares |
| NetworkFormat.ReadLayerAt | src/utils/NetworkLoader.hpp:38-53 | the switch on the layer type reads one layer as specified |
| NetworkFormat.LoadNetwork | src/utils/NetworkLoader.hpp:23-57 | loading a file returns its specified layers or error |
| NetworkFormat.ReadLayers | src/utils/NetworkLoader.hpp:37-54 | the layer loop reads the specified layers, stopping at the first error |
| NetworkFormat.PrependNothing | src/utils/NetworkLoader.hpp:36 | the loop starts with no layer read |
| NetworkFormat.PrependStep | src/utils/NetworkLoader.hpp:37-53 | one iteration either stops with the layer's error or appends the layer and moves on |
| NetworkFormat.HeaderRoundTrip | src/utils/NetworkLoader.hpp:31-32 | a written header reads back with the magic, the version, the hash modulo 2^64 and the count modulo 2^32 |
| NetworkFormat.ReadRecord | src/utils/NetworkLoader.hpp:38-53 | a well-formed layer's record reads back as that layer, ending just after it |
| NetworkFormat.ReadPlainRecord | src/utils/NetworkLoader.hpp:45-50 | a ReLU or Softmax record reads back as that layer |
| NetworkFormat.ReadLinearRecord | src/utils/NetworkLoader.hpp:42-44 | a well-formed Linear record reads back with its sizes, weights and biases |
| NetworkFormat.RecordLinear | src/utils/NetworkSaver.hpp:94-110 | a Linear record is its header, then the weights, then the biases |
| NetworkFormat.ReadLinearAt | src/utils/NetworkLoader.hpp:97-108 | a Linear header followed by its buffers reads back as the layer, ending after the biases |
| NetworkFormat.LayerHeaderRoundTrip | src/utils/NetworkLoader.hpp:77-82 | a Linear layer header reads back with its type and sizes |
| NetworkFormat.ReadBuffers | src/utils/NetworkLoader.hpp:101-105 | the weights and biases written read back unchanged |
| NetworkFormat.AllWellFormedOf | src/utils/NetworkSaver.hpp:39-47 | layers that are all well formed satisfy the recursive well-formedness used by the load proof |
| NetworkFormat.LoadRecords | src/utils/NetworkLoader.hpp:37-54 | the records of well-formed layers load back as those layers |
| NetworkFormat.RecordsCons | src/utils/NetworkSaver.hpp:39-47 | the records are the first layer's record followed by the rest |
| NetworkFormat.LoadStep | src/utils/NetworkLoader.hpp:37-54 | a record in front of loadable records loads as one more layer |
| NetworkFormat.LoadCons | src/utils/NetworkLoader.hpp:37-54 | a layer read followed by the remaining layers loads as their concatenation |
| NetworkFormat.SaveLoad | src/utils/NetworkLoader.hpp:23-57 | saving between one and 2^32 - 1 well-formed layers and loading the file back gives the same layers |
| NetworkFormat.SmallCount | src/utils/NetworkSaver.hpp:89-92 | a layer count below 2^32 survives the `uint32_t` store |
| NetworkFormat.LoadFromHeader | src/utils/NetworkLoader.hpp:31-37 | after a valid header, loading is the layer loop from byte 32 |
| NetworkFormat.SaveEmptyRejected | src/utils/NetworkLoader.hpp:92-94 | a saved network whose layer count wraps to 0 is rejected as having no layers |
| NetworkFormat.UnknownCodeRejected | src/utils/NetworkLoader.hpp:51-52 | a layer type other than 1, 2 and 3 is rejected as unknown |
| NetworkGeneration.FoldOne | src/generator/NetworkGenerator.hpp:274 | one multiply-add of the hash, wrapped to 64 bits |
| NetworkGeneration.GeneratorArchHash | src/generator/NetworkGenerator.hpp:269-278 | the loop computes the 31-polynomial of the input size, the hidden sizes and the output size, modulo 2^64 |
| NetworkGeneration.Chain | src/generator/NetworkGenerator.hpp:148-155 | a Linear and a ReLU per hidden size, then one Linear: 2h + 1 layers |
| NetworkGeneration.ChainShapes | src/generator/NetworkGenerator.hpp:148-155 | layer 2k is Linear from the previous size to hidden size k, layer 2k + 1 is ReLU, the last is Linear to the output size |
| NetworkGeneration.ChainLinks | src/generator/NetworkGenerator.hpp:148-155 | the chain starts at the input size, ends at the output size, and each Linear's output is the next Linear's input |
| NetworkGeneration.GenerateLayers | src/generator/NetworkGenerator.hpp:142-160 | the loop builds exactly the specified layer chain |
| NetworkGeneration.Initialize | src/generator/NetworkGenerator.hpp:170-219 | initialization keeps one layer per shape |
| NetworkGeneration.LayerOf | src/generator/NetworkGenerator.hpp:171-218 | an initialized layer keeps its shape, with inputs times outputs weights and one bias per output |
| NetworkGeneration.InitializeShapes | src/generator/NetworkGenerator.hpp:170-219 | every initialized layer has the shape it was generated with |
| NetworkGeneration.LayerDraws | src/generator/NetworkGenerator.hpp:172-217 | every weight is a draw; biases are zero for `zeros` and draws otherwise |
| NetworkGeneration.Sizes | src/generator/NetworkGenerator.hpp:96-98 | each hidden size is written as four bytes |
| NetworkGeneration.Chars | src/generator/NetworkGenerator.hpp:113 | the scheduler type is written one byte per character |
| NetworkGeneration.HyperparameterBytes | src/generator/NetworkGenerator.hpp:81-86 | the hyperparameter section is 28 bytes |
| NetworkGeneration.ArchitectureBytes | src/generator/NetworkGenerator.hpp:90-99 | the architecture section is 16 bytes plus four per hidden size |
| NetworkGeneration.InitializationBytes | src/generator/NetworkGenerator.hpp:103-106 | the initialization section is 8 bytes |
| NetworkGeneration.SchedulerBytes | src/generator/NetworkGenerator.hpp:110-117 | the scheduler section is 24 bytes plus the type length as truncated to 32 bits |
| NetworkGeneration.ConfigHeaderBytes | src/generator/NetworkGenerator.hpp:63-68 | the config header is 16 bytes |
| NetworkGeneration.WriteSizes | src/generator/NetworkGenerator.hpp:96-98 | the loop writes every hidden size in order |
| NetworkGeneration.SizesSnoc | src/generator/NetworkGenerator.hpp:96-98 | one more size appends its four bytes |
| NetworkGeneration.WriteConfiguration | src/generator/NetworkGenerator.hpp:70-124 | after the placeholder is patched, the file is extended by the config header holding the four section sizes, followed by the sections |
| NetworkGeneration.WriteSections | src/generator/NetworkGenerator.hpp:80-117 | the four sections are appended, and the sizes recorded are 28, 16 + 4h, 8 and 24 + the type length |
| NetworkGeneration.ArchitectureHead | src/generator/NetworkGenerator.hpp:91-95 | the fixed part of the architecture section is 16 bytes |
| NetworkGeneration.GenerateNetwork | src/generator/NetworkGenerator.hpp:26-49 | the file is the header, the configuration block and the layer records |
| NetworkGeneration.GeneratedSmall | src/generator/NetworkGenerator.hpp:148-155 | with sizes below 2^32 every generated shape is small enough to write |
| NetworkGeneration.LayerWellFormed | src/generator/NetworkGenerator.hpp:171-218 | a small shape initializes to a well-formed layer |
| NetworkGeneration.GeneratedWellFormed | src/generator/NetworkGenerator.hpp:142-160 | with sizes below 2^32, the generated network has 2h + 1 layers, all well formed |
| NetworkGeneration.HeaderCount | src/generator/NetworkGenerator.hpp:37-38 | for a validated configuration, the header's layer count is the number of layers generated |
| NetworkGeneration.GeneratedCount | src/generator/NetworkGenerator.hpp:148-155 | 2h + 1 layers are generated for h hidden sizes |
| NetworkGeneration.HeaderFirst | src/generator/NetworkGenerator.hpp:33-41 | the generated file starts with the network header |
| NetworkGeneration.OddCount | src/generator/NetworkGenerator.hpp:37-38 | an odd layer count never wraps to zero |
| NetworkGeneration.ConfigBlockStart | src/generator/NetworkGenerator.hpp:119-122 | the configuration block starts with the 32-bit hyperparameter section size |
| NetworkGeneration.GeneratedNotLoadable | src/generator/NetworkGenerator.hpp:41-46 | the loader rejects every generated file: the first field after the header is 28, an unknown layer type |
| NetworkGeneration.HashesAgreeWithoutHidden | src/generator/NetworkGenerator.hpp:269-278 | without hidden layers, the generator's hash is the saver's hash of the generated layers |
| NetworkGeneration.OneHiddenDims | src/generator/NetworkGenerator.hpp:148-155 | with one hidden size the saver hashes input, hidden, hidden, output |
| NetworkGeneration.HashesDifferWithHidden | src/generator/NetworkGenerator.hpp:269-278 | with hidden layers the two hashes differ: 993 against 30784 for sizes 1, 1, 1 |
| TestReport.StripBlank | scripts/test.py:37 | a line strips to nothing exactly when it is blank |
| TestReport.TokensBlank | scripts/test.py:30 | a line splits into no words exactly when it is blank |
| TestReport.ParseFenAndState | scripts/test.py:29-33 | a blank line has no last word (the IndexError); otherwise the state is one of the line's words, and the checkmate flag is set exactly when the line mentions checkmate or Checkmate |
| TestReport.LastWordIsState | scripts/test.py:30-31 | for words joined by spaces the state is the last word |
| TestReport.ReadTestPositions | scripts/test.py:35-37 | at most one expectation per line |
| TestReport.NonBlank | scripts/test.py:37 | the kept lines are not blank |
| TestReport.PositionsOfLines | scripts/test.py:35-37 | one expectation per non-blank line, in order, each that line's parse |
| TestReport.ReadAiOutput | scripts/test.py:39-40 | the answers are non-empty lines |
| TestReport.AiOutputOfLines | scripts/test.py:39-40 | one answer per non-blank line, in order, each that line stripped |
| TestReport.MapExpectedState | scripts/test.py:42-47 | White and Black become `Checkmate <side>` or `Check <side>` by the flag; any other state is kept |
| TestReport.MapExpectedInjective | scripts/test.py:42-46 | different sides or flags never map to the same expected text |
| TestReport.Hits | scripts/test.py:66-68 | one verdict per position that has an answer, as `zip` pairs them |
| TestReport.CountBounds | scripts/test.py:64-71 | the count of correct verdicts is at most their number, full exactly when all are correct, zero exactly when none is |
| TestReport.CorrectMeans | scripts/test.py:64-71 | the number correct is at most the number compared, equal to it exactly when every answer matches, zero exactly when none does |
| TestReport.CompareStates | scripts/test.py:53-92 | the loop counts the matching answers; the total is the number of positions |
| TestReport.Accuracy | scripts/test.py:87 | no positions gives 0; otherwise a percentage in 0 to 100 that is 100 exactly when all are correct |
| TestReport.RunTest | scripts/test.py:94-107 | a wrong argument count is the usage message, an unreadable file the error, differing counts of non-blank lines the mismatch; otherwise the report over all positions with correct count and accuracy |

## Left out

- Element type: arrays hold unbounded `int`s, and learning rates and scalars are `int`; the source is a template used with `double`. Floating-point rounding, NaN and infinity do not exist in the model, so the NaN/inf skip of `SGD::step` (lib/nn/SGD.hpp:51-53, 64-66) never fires.
- Integer widths: the `int` casts of indices and the 32-bit `stoi` range are written out where they decide an outcome. Element arithmetic does not wrap, and the `int` conversion of Linear sizes of 2^31 or more is not modelled.
- Random initialisation (`RANDOM` fill, `mt19937`, uniform and normal distributions) is not modelled. The generator takes the drawn values as a `draw(layer, index)` parameter, and only their placement is stated.
- Doubles written to files are taken as 64-bit patterns through a `bits` parameter; `stod` returns the exact real (Scale), with no rounding. `Parsing.StoD` also reads only decimal digits with an optional sign, fraction and exponent. It does not raise the `out_of_range` `std::stod` throws on an overflowing value such as `"1e400"` (it reads 10^400), and it rejects the `"inf"`, `"nan"` and hexadecimal forms (`"0x1p-3"`) that `std::stod` accepts.
- Softmax and CrossEntropyLoss forward passes (`exp`, `log`) are not modelled; only their backward nodes are.
- Ownership: `shared_ptr` sharing and aliasing between nodes is not modelled. The node graph is an acyclic datatype, and Accumulate targets are indices into a table of leaf gradients. A node reachable along two paths is modelled as two copies.
- Tensor.hpp lags behind Tensor.cpp. The default of `_requiresGrad` and the default fill of the one-argument shape constructor are therefore parameters (`flag`, `fill`).
- `matmul` on two rank-0 arrays reads `_shape[1]`, which is undefined behaviour; it is modelled as OutOfRange.
- Exceptions: each `throw` is an error value naming its kind and, where a caller reads it, its data (line number, key, FEN text). The message texts of FenValidator are not reproduced.
- Partial state after an exception is modelled where the object survives (in-place operations, the MM scratch arrays, NetworkConfig). In the pure node semantics a failing backward returns only the error.
- The training loop (src/analyzer/training/chessTraining.cpp:36-158) is not modelled: shuffling, loss averaging, NaN scrubbing, printing and checkpoints. Its batch partition and argmax are modelled.
- File and stream I/O: files are given as `Option<seq<string>>` (lines) or `Option<seq<Byte>>` (bytes), `None` when they cannot be opened.
  - The writers return the bytes they would write.
  - The generator's `tellp`/`seekp` back-patch is a splice of the 16-byte config header.
  - `cout`/`cerr` output, colours, emojis and the table of test.py are not modelled.
- NetworkFormat.ReadLinear: a truncated weight or bias read is reported as Truncated. The source keeps the values the Linear constructor put there; that random initialisation is outside the model.
- The loader's header and layer-header reads past the end of the file give zero bytes, like the zero-initialised structs.
- Characters are bytes: `Chars` writes each character modulo 256. `isspace` is the C-locale set, which test.py's Unicode-aware `strip`/`split` extends beyond.
- Generator→loader round trip: none exists. NetworkGeneration.GeneratedNotLoadable proves the loader rejects every generated file.
- src/utils/FileHandler.hpp, the two main.cpp stubs, lib/nn/Linear.hpp, Module.hpp, Parameter.hpp, Sequential.hpp (a stub returning `{2,3}`) and TensorBase.hpp are not part of this model. The other Python scripts and generate_dataset.py are not part of this model either.
- TensorArrays.TensorArray methods, ClosureTensors.Tensor methods and NodeObjects: they require the class invariant: `|strides| == |shape|`, and buffers that hold every in-shape offset. Every constructor and operation of the model keeps that invariant.
- StridedArray.Read: requires that the computed offset lies inside the buffer. The const accessor does not check it, and reading past the buffer is undefined behaviour. Its coordinates are `nat`, so the negative `int` coordinates the const accessor also accepts (lib/Tensor/TensorArray.hpp:72) cannot be stated.
- StridedArray.Locate: coordinates, shapes and strides are `nat`, where the source stores `std::vector<int>` (lib/Tensor/TensorArray.hpp:87-88) and takes `int` coordinates (lib/Tensor/TensorArray.hpp:73). The mutable accessor tests only `coords[k] >= _shape[k]` (lib/Tensor/TensorArray.cpp:308), so a negative coordinate passes it: (1, -1) on a 2-by-3 row-major matrix addresses element 2. The model cannot express such calls, and every accessor built on Locate (ArrayShape.At, ArrayShape.SetAt, MMScratch.Locate2) shares this restriction.
- ArrayMatmul.Lifted: lib/Tensor/TensorArray.cpp:196 and :214 call `unsqueezed()` and `removeDim()` with no argument, and lib/Tensor/TensorArray.hpp declares neither, so their default axis is not visible. The model takes axis 0 for both, which turns a vector receiver into a 1-by-n row, the only reading under which the product loop that follows is in range. ArrayMatmul.MatmulVector and TensorArrays.TensorArray.Matmul rest on the same reading.
- NetworkFormat.SaveNetwork: the layer datatype has only Linear, ReLU and Softmax. `countLayers` (src/utils/NetworkSaver.hpp:89-92) counts every layer of the network while the loop at src/utils/NetworkSaver.hpp:39-47 writes records for those three kinds only, so a network holding any other layer kind gets a header count larger than its records; the model cannot represent such a network.
- MMScratch.RunSumsIJ and GradNodes.MMTwice: state backward()'s loops on operands whose A fits inside B (AlignedIJ). On other operands the write `_newGradB({i, j})` leaves B's shape and raises out_of_range; the model's Run computes that outcome, but no lemma states it.
- NeuralNet.ReLU.Backward: requires the gradient to be no longer than the stored input. A longer gradient reads past `_lastInput`, which is undefined behaviour.
- NeuralNet.SGD.Step: requires every gradient buffer to be at least as long as its parameter buffer. The source reads them unchecked.
- MMScratch, NodeObjects.MMBackward.Backward and GradNodes.Backward: require an MM node's operands to have rank at least 2. The source reads `shape()[0]` and `shape()[1]` unchecked.
- FenConversion.ConvertBoard: requires the placement to stay within 64 squares. An overfull placement makes the source write outside the 768-entry board.
- ChessTraining.Batches: requires a positive batch size when there is data. With batch size 0 the source loops forever.
- ChessTraining.PredictedClass: requires a non-empty output. The source reads element 0 unconditionally.
- ArrayOps.Combine: the unchecked "Checks of shape to be done" (lib/Tensor/TensorArray.hpp:80-81) is modelled as the first out-of-range index, not as a shape check.

## Findings

| source | as written | input that shows it | evidently intended | confidence | as-written member | corrected member |
|---|---|---|---|---|---|---|
| lib/Tensor/TensorArray.cpp:242-246 | `transpose` writes element (i, j) of the receiver to `result({i, j})` of the transposed-shape result | any 2x3 matrix raises out_of_range; for the square [[1,2],[3,4]] the result still reads 2 at (0, 1), the receiver's own element (0, 1) | write to `result({j, i})`, so the result reads at (j, i) what the receiver holds at (i, j) | not executed | ArrayShape.TransposeSquareReadsSame | ArrayShape.TransposeIntendedCorrect |
| lib/Tensor/autograd/MMBackward.hpp:57 | `backward()` adds A(i, j) into `_newGradB({i, j})` | A = [[1,2],[3,4]], B = [[5,6],[7,8]]: B's scratch becomes [[2,4],[6,8]] | `_newGradB({j, k})`, as in `backward(grad)`: [[4,4],[6,6]] | not executed | MMScratch.ExampleIJ | MMScratch.ExampleJK |
| lib/Tensor/TensorArray.cpp:176 | `removeDim` refuses only `dim > size` | dim == rank, e.g. removeDim(2) on a 2x3 array, reaches `erase(end())`, which is undefined behaviour | refuse `dim >= size` | not executed | ArrayShape.RemoveDimGuardAdmitsEnd | ArrayShape.RemoveDim |

The program's operations follow the code as written: TensorArrays.TensorArray.Transpose and the Matmul closure use the as-written transpose, and an MM node's backward() runs the `{i, j}` loops. Each corrected member is the evidently intended definition, with its property proved beside the as-written one.

# Verified model of a launch-vehicle simulator's numerical cores

A Dafny model, over exact reals, of the parts of the repository that keep state or run loops and that
compute something with a simple mathematical meaning. Each algorithm keeps its source's form (in-place
loops, pushes into shared vectors, fixed buffers) and is proved against an independent specification.

| area | modules | main theorem |
|---|---|---|
| Articulated-body forward dynamics | `LinearAlgebra`, `LinearSolve`, `SpatialAlgebra`, `Rotations`, `ArticulatedStep`, `ArticulatedTree`, `Passes`, `ForwardDynamics`, `JointKinematics`, `JointPlacement`, `NewtonEuler`, `VirtualPower`, `CaseDynamics` | The three passes return the only joint accelerations that satisfy the Newton-Euler equations of the whole tree, for joints of every dimension; for physical bodies they never fail, and every joint moves its body rigidly. Those equations are the principle of virtual power with Newton's and Euler's laws for each rigid body |
| Panel mesh, index tree, ray queries, panel loads | `Sorting`, `PanelMesh`, `PanelBvh`, `RayQuery`, `RayQueryExactness`, `PanelLoads`, `PanelGeometry` | The pruned query equals brute force on every watertight mesh exactly for directions whose components are zero or larger than 1e-12; loads are conserved over bins, never push upstream, and follow from the corners of each triangle |
| N-axis aerodynamic deck | `DeckInterpolation`, `DeckStencil`, `AeroDeck`, `DeckLookup`, `CorrelationMatrix`, `CorrelationForm` | Strides, corner stencil and in-place reduction compute the multilinear interpolant for every N, whichever cells bracketing picks; the correlation validator accepts exactly matrices whose lower triangle, mirrored, is positive definite |
| Baking and quadrature | `DeckBaking`, `PlanformGeometry`, `NoseShapes` | Baked decks answer at every node with what was computed there; Simpson's loop is exact on cones |
| Distributed-source acoustics | `Directivity`, `DirectivityExactness`, `SourceAllocation`, `AxialWeights`, `StationSpectra`, `SpectraLaws` | The curve lookup is bilinear in angle and log-Strouhal number, and the baked band deck agrees with it everywhere; received levels obey spherical spreading and shift by exactly the decibels of directivity and absorption; fractions sum to exactly one; two evaluators agree exactly when the fractions' total is one |
| Framing | `Framing`, `PumpRuns`, `FramePump` | Frames of any stream are recovered in order however the bytes are cut into chunks; from every point of every run all of them can still be consumed exactly when every frame fits the pump's buffer |

`Wrappers` holds the two result datatypes, `Reals` the shared laws of real arithmetic and of
increasing sequences. `dafny verify dfyconfig.toml` checks the whole project.

## How the code is represented

- `f64` is `real`, so finiteness checks always pass and rounding is absent. `usize` is `nat`; the `u32`
  length prefix of a frame is bounded explicitly by 2^32.
- `sqrt`, `sin`, `cos`, `atan2`, `log10` and powers of ten are function parameters with only the facts
  used: `sqrt(x)` is not negative and has square `x`, sin^2 + cos^2 = 1, `log10` is increasing on positives,
  powers are positive. Where a proof needs none of these the parameter is arbitrary.
- Correlations that are single formulas (component drag, DATCOM terms, skin friction) are function
  parameters of the loops that use them.
- `np.linalg.solve` and `np.linalg.inv` are Gaussian elimination with partial pivoting, written out in
  `LinearSolve` and proved to succeed exactly on nonsingular matrices.
- Vectors that the source pushes onto, overwrites or truncates are method-local sequences, arrays or
  fields; the index tree and the frame pump are classes over their own fields.
- Integer products and quotients in the deck modules go through the named functions `Times` and
  `Quotient`, so that proofs about positions need not reason about nonlinear arithmetic.

## Findings

- Pruning (`RayQueryExactness.IrregularMisses`): a direction component in (0, 1e-12] is treated as parallel,
  and a concrete watertight tetrahedron is then missed from some origin; `SomeRayIsMissed` is such a ray.
  `PruningIsExactIff` gives the exact condition. `ray_intersects` normalises its direction, so the condition
  is about the unit vector.
- Moments (`PanelLoads.MomentShift`): the code sums (centroid - cg) x F, so moving the reference from cg1 to
  cg2 changes the moment by (cg1 - cg2) x F, and the moment about cg1 exceeds that about cg2 by (cg2 - cg1)
  x F.
- Framing (`Framing.FrameRoundTrip`): `frame` clamps the announced length, so the round trip holds exactly
  for payloads shorter than 2^32 bytes; `frame_into` refuses longer ones.
- Frame pump (`FramePump.Pump.TryStep`, `FramePump.RefusedIsOfferedAgain`): a step that fails has already
  shown the front payload to the controller and advanced it, leaves the frame in front, and the next step
  shows it the same payload again.
- Frame pump (`PumpRuns.NeverStuckExactly`, `PumpRuns.FinishableExactly`): a frame longer than the input
  buffer blocks the pump until it is cleared, since `ingest` refuses every further byte and the pump waits.
  This is the only way to get stuck: a stream can be consumed to its end, from every point of every run,
  exactly when each of its frames fits the buffer.
- Joints (`JointKinematics.RevoluteAgainstSpherical`): the revolute joint uses the axis rotation itself as
  child-from-parent matrix, the spherical and free joints the transpose of the quaternion's, while all list
  the positive axis as motion column. The same turn therefore moves a body in opposite senses, and
  `TurnsAgreeExactly`: the two agree exactly when the sine of the angle is zero (`SomeTurnsDiffer`). The
  equations of motion are solved for whatever transforms and columns the joints supply.
- Planform centroid (`PlanformGeometry.SomeCentroidIsClamped`): no check compares nose plus afterbody with
  the body length, and a body ten long with an afterbody of a hundred has a negative centroid, which the
  clamp moves to the nose tip. `ClampActsExactly` and `OverlapClampsExactly` give the exact conditions.
- Acoustics (`StationSpectra.EvaluatorsAgreeExactly`): the shape and allocation constructors admit sums
  within 1e-12 of one, and the evaluators' pressures then differ by that factor, the product of the two sums;
  `EvaluatorsDiffer` is a set-up that both accept.
- Acoustics (`StationSpectra.FreeFieldSucceeds`, `SourceBandSucceeds`): one band without power makes the
  whole evaluation fail. So does a band whose lower edge is not below its upper edge: shapes, decks and
  propagation accept such a grid, and only the spectrum built at the end of an evaluation refuses it
  (`FlatBandIsAdmitted`).
- Correlations (`CorrelationForm.SomeAcceptedIsIndefinite`): the factorisation reads only the lower
  triangle, and the upper one may differ from it by 1e-12, so an accepted matrix can itself be indefinite.
  `AcceptedFormBound` bounds by how much, and by `SymmetricIsMirrored` an exactly symmetric matrix is
  accepted only if it is positive definite.
- Grids (`DeckBaking.InclusiveGrid`): equal bounds with several steps are accepted, although no deck can be
  baked on the result.

## Model

| member | source | states |
|---|---|---|
| `SpatialAlgebra.CrossDuality` | scripts/generate_spatial_v2_independent_aba_oracle.py:24-33 | The force cross matrix is minus the transpose of the motion cross matrix as operators: power of a crossed motion equals minus that of the crossed force |
| `SpatialAlgebra.SelfCross` | scripts/generate_spatial_v2_independent_aba_oracle.py:24-29 | A motion crossed with itself vanishes, for every six-vector |
| `SpatialAlgebra.GyroscopicForceIsWorkless` | scripts/generate_spatial_v2_independent_aba_oracle.py:24-33 | The velocity-product force does no work on the velocity that causes it |
| `SpatialAlgebra.InertiaForm` | scripts/generate_spatial_v2_independent_aba_oracle.py:97-109 | The spatial inertia matrix is the bilinear kinetic-energy form of a rigid body: mass times centre velocities plus the diagonal rotational form |
| `SpatialAlgebra.SpatialInertiaDefinite` | scripts/generate_spatial_v2_independent_aba_oracle.py:97-109 | Positive mass and principal moments make the spatial inertia symmetric and positive definite, for any centre of mass |
| `NewtonEuler.MotionCrossActs` | scripts/generate_spatial_v2_independent_aba_oracle.py:24-29 | Crossing two motions: the angular halves cross, the linear half is the sum of both mixed cross products |
| `NewtonEuler.ForceCrossActs` | scripts/generate_spatial_v2_independent_aba_oracle.py:24-33 | Crossing a motion with a force: the moment gathers both mixed cross products, the linear halves cross |
| `NewtonEuler.InertiaActs` | scripts/generate_spatial_v2_independent_aba_oracle.py:97-109 | The spatial inertia gives mass times the centre's velocity as momentum, and its moment plus the central angular momentum |
| `NewtonEuler.RigidBodyNeeds` | scripts/generate_spatial_v2_independent_aba_oracle.py:97-109 | Inertia times acceleration plus the velocity-product force is mass times the centre's classical acceleration, and Euler's moment about the body origin |
| `LinearAlgebra.SymmetricEntries` | scripts/generate_spatial_v2_independent_aba_oracle.py:245-280 | A matrix that is symmetric as an operator, as the inertias of the pass are shown to be, has mirrored entries |
| `Rotations.AxisRotationIsProper` | scripts/generate_spatial_v2_independent_aba_oracle.py:36-62 | For a unit axis and sin^2 + cos^2 = 1 the axis rotation is orthogonal with determinant one |
| `Rotations.QuaternionRotationIsProper` | scripts/generate_spatial_v2_independent_aba_oracle.py:65-76 | The matrix of every normalised quaternion is a proper rotation |
| `Rotations.TransposedQuaternion` | scripts/generate_spatial_v2_independent_aba_oracle.py:149-158 | Transposing the quaternion matrix, as the joints do, is the rotation of the conjugate quaternion |
| `Rotations.RotationKeepsCross` | scripts/generate_spatial_v2_independent_aba_oracle.py:79-85 | Proper rotations commute with the cross product, for all vectors |
| `Rotations.RotationInverts` | scripts/generate_spatial_v2_independent_aba_oracle.py:88-94 | A proper rotation undoes its transpose, so composing with the carried-back translation loses nothing |
| `Rotations.MotionTransformActs` | scripts/generate_spatial_v2_independent_aba_oracle.py:79-85 | The block matrix moves a twist to the child frame: rotated angular part, rotated linear part at the new origin |
| `Rotations.ComposeIsProduct` | scripts/generate_spatial_v2_independent_aba_oracle.py:88-94 | Composing two poses and then building the motion matrix is multiplying the two motion matrices |
| `JointKinematics.JointIsRigid` | scripts/generate_spatial_v2_independent_aba_oracle.py:149-161 | Every joint kind at every position turns the frame by a proper rotation, given sin^2 + cos^2 = 1 and sqrt(x)^2 = x |
| `JointKinematics.TransformIsPlacementThenJoint` | scripts/generate_spatial_v2_independent_aba_oracle.py:217-223 | The motion matrix the pass uses for a body is the joint's times that of its fixed placement |
| `JointKinematics.HalfAngle` | scripts/generate_spatial_v2_independent_aba_oracle.py:36-76 | The matrix of an axis and an angle is the matrix of the quaternion of half that angle |
| `JointKinematics.RevoluteAgainstSpherical` | scripts/generate_spatial_v2_independent_aba_oracle.py:149-158 | A revolute joint and a spherical joint given the same turn produce transposed matrices |
| `JointKinematics.TurnsAgreeExactly` | scripts/generate_spatial_v2_independent_aba_oracle.py:149-158 | They turn a body the same way iff the sine of the angle is zero |
| `JointKinematics.SomeTurnsDiffer` | scripts/generate_spatial_v2_independent_aba_oracle.py:149-158 | A concrete turn, of cosine 7/25 and sine 24/25, by which they differ |
| `JointPlacement.MapOfLink` | scripts/generate_spatial_v2_independent_aba_oracle.py:217-223 | A link's motion map depends on the body and its coordinates alone, so the maps below are those of the pass |
| `JointPlacement.AxisRotationActs` | scripts/generate_spatial_v2_independent_aba_oracle.py:36-62 | The axis rotation turns every vector by Rodrigues' formula |
| `JointPlacement.QuaternionActs` | scripts/generate_spatial_v2_independent_aba_oracle.py:65-76 | The quaternion matrix turns every vector by the double cross product |
| `JointPlacement.PrismaticMap` | scripts/generate_spatial_v2_independent_aba_oracle.py:149-161 | A prismatic joint keeps orientation and moves the origin by its coordinate along the unit axis: twist w + v becomes w + (v - q u x w) |
| `JointPlacement.PrismaticOrigin` | scripts/generate_spatial_v2_independent_aba_oracle.py:149-161 | The child of a prismatic joint has its origin at the coordinate times the unit axis, and nowhere else |
| `JointPlacement.TurningMap` | scripts/generate_spatial_v2_independent_aba_oracle.py:149-161 | Revolute and spherical joints turn both halves of a twist by their rotation and keep the origin |
| `JointPlacement.FreeMap` | scripts/generate_spatial_v2_independent_aba_oracle.py:149-161 | A free joint first moves the origin to its last three coordinates and then turns as a spherical joint |
| `JointPlacement.FreeOrigin` | scripts/generate_spatial_v2_independent_aba_oracle.py:149-161 | The child of a free joint has its origin at the last three coordinates |
| `JointPlacement.WeldedMap` | scripts/generate_spatial_v2_independent_aba_oracle.py:149-161 | A welded joint changes no twist |
| `JointPlacement.RatesAreMotions` | scripts/generate_spatial_v2_independent_aba_oracle.py:164-193 | What each joint kind's columns make of its rates: turning about the unit axis, sliding along it, or the rates as the motion itself |
| `JointPlacement.PrismaticSlides` | scripts/generate_spatial_v2_independent_aba_oracle.py:149-193 | Between two positions the child moved by the difference times the linear half of the joint's own column |
| `JointPlacement.RevoluteColumn` | scripts/generate_spatial_v2_independent_aba_oracle.py:149-193 | The revolute map turns about the angular half of the joint's own column, in the sense of the sine |
| `LinearSolve.SolveUnique` | scripts/generate_spatial_v2_independent_aba_oracle.py:259-260 | When elimination succeeds, x solves A x = b iff x is the vector it returned |
| `LinearSolve.NoneIsSingular` | scripts/generate_spatial_v2_independent_aba_oracle.py:259-260 | A refused matrix has a nonzero vector in its kernel, so refusal happens only on singular matrices |
| `LinearSolve.SolvableIffNonsingular` | scripts/generate_spatial_v2_independent_aba_oracle.py:259-260 | Elimination succeeds for a right-hand side iff the matrix is nonsingular |
| `LinearSolve.InverseSolves` | scripts/generate_spatial_v2_independent_aba_oracle.py:260 | The inverse of a nonsingular matrix exists, and applied to any vector it is the solution for that vector |
| `LinearSolve.InverseSymmetric` | scripts/generate_spatial_v2_independent_aba_oracle.py:260 | The inverse of a symmetric nonsingular matrix is symmetric as an operator |
| `LinearSolve.DefiniteIsNonsingular` | scripts/generate_spatial_v2_independent_aba_oracle.py:259-260 | A positive definite matrix is never refused |
| `ArticulatedStep.JointEquation` | scripts/generate_spatial_v2_independent_aba_oracle.py:247-260 | The joint equation S.(IA a + p + IA S q) = tau has exactly one solution q, the one computed with D = S IA S and u = tau - S.p |
| `ArticulatedStep.ReducedForce` | scripts/generate_spatial_v2_independent_aba_oracle.py:258-270 | The force through a joint that obeys its equation is the reduced inertia times the carried acceleration plus the reduced bias |
| `ArticulatedStep.JointMatrixDefinite` | scripts/generate_spatial_v2_independent_aba_oracle.py:247-248 | For a positive definite articulated inertia and independent joint columns the joint matrix D is positive definite, for any number of columns |
| `ArticulatedStep.ReducedForm` | scripts/generate_spatial_v2_independent_aba_oracle.py:261-265 | The reduced inertia is the form of IA minus the inverse-weighted form of its columns |
| `ArticulatedStep.ReducedSymmetric` | scripts/generate_spatial_v2_independent_aba_oracle.py:261-265 | Reduction keeps symmetry |
| `ArticulatedStep.ReducedSemidefinite` | scripts/generate_spatial_v2_independent_aba_oracle.py:261-265 | Reducing a symmetric positive semidefinite inertia over any joint with nonsingular D leaves it positive semidefinite (Cauchy-Schwarz) |
| `ArticulatedStep.CongruenceAdds` | scripts/generate_spatial_v2_independent_aba_oracle.py:277-280 | Adding a transformed positive semidefinite inertia keeps the parent symmetric and positive definite |
| `ArticulatedTree.InertiaSymmetric` | scripts/generate_spatial_v2_independent_aba_oracle.py:245-280 | Every articulated inertia, at every moment of the inward pass, is symmetric when the body inertias are |
| `ArticulatedTree.InertiaDefinite` | scripts/generate_spatial_v2_independent_aba_oracle.py:245-280 | Every articulated inertia, at every moment of the inward pass, is symmetric positive definite for physical bodies |
| `ArticulatedTree.ReducedDefinite` | scripts/generate_spatial_v2_independent_aba_oracle.py:245-280 | Every reduced inertia handed to a parent is symmetric positive semidefinite |
| `ArticulatedTree.PhysicalIsSolvable` | scripts/generate_spatial_v2_independent_aba_oracle.py:245-280 | For physical bodies with independent joint columns no joint matrix of the whole tree is singular, so the pass never fails |
| `ArticulatedTree.ForceIsAffine` | scripts/generate_spatial_v2_independent_aba_oracle.py:226-304 | The key invariant: while descendants balance, the force through body i is IA_i a_i + pA_i, for every tree and every stage of the inward pass |
| `ArticulatedTree.BalancedIffWanted` | scripts/generate_spatial_v2_independent_aba_oracle.py:285-303 | A joint meets its equation of motion iff its acceleration is the one the outward pass solves for |
| `ArticulatedTree.SolvesEquationsOfMotion` | scripts/generate_spatial_v2_independent_aba_oracle.py:210-304 | For every tree with symmetric inertias and nonsingular joint matrices the recursion's accelerations solve the Newton-Euler equations of the whole tree, and nothing else does |
| `VirtualPower.CoriolisLaw` | scripts/generate_spatial_v2_independent_aba_oracle.py:230-244 | The velocity-product acceleration is minus the joint velocity crossed with the velocity carried from the parent |
| `VirtualPower.AccelerationIsAffine` | scripts/generate_spatial_v2_independent_aba_oracle.py:282-303 | Accelerations are what joint accelerations give as rates would give velocities, plus the carried root acceleration, plus the drift of turning joints |
| `VirtualPower.NewtonAndEuler` | scripts/generate_spatial_v2_independent_aba_oracle.py:226-245 | For a rigid body, what it needs is Newton's law for its mass centre and Euler's law about its origin, less the applied force and moment |
| `VirtualPower.MotionByVirtualPower` | scripts/generate_spatial_v2_independent_aba_oracle.py:210-304 | The equations of motion hold iff for all virtual rates the power of what the bodies need is the power of the generalized forces |
| `VirtualPower.PowerBalances` | scripts/generate_spatial_v2_independent_aba_oracle.py:210-304 | Whenever the equations of motion hold, the power into the inertias is the power of the joint forces plus the power of the applied forces |
| `CaseDynamics.JoinedSlices` | scripts/generate_spatial_v2_independent_aba_oracle.py:196-207 | Every family of joint vectors is the slices of one flat vector |
| `CaseDynamics.CaseMotion` | scripts/generate_spatial_v2_independent_aba_oracle.py:210-304 | In the flat vectors of a case: the equations hold iff for all flat virtual rates the bodies' power is the product with the case's generalized forces |
| `CaseDynamics.CaseState` | scripts/generate_spatial_v2_independent_aba_oracle.py:216-245 | Bodies move at the case's rates and carry the case's applied forces |
| `Passes.ProjectColumns` | scripts/generate_spatial_v2_independent_aba_oracle.py:261-264 | The double loop of weighted outer products computes the projector with the inverse joint matrix |
| `Passes.VelocityPass` | scripts/generate_spatial_v2_independent_aba_oracle.py:230-243 | The outward loop computes every body's Coriolis acceleration and velocity-product bias force |
| `Passes.ReduceBody` | scripts/generate_spatial_v2_independent_aba_oracle.py:247-270 | One inward step: fails iff D is singular, otherwise leaves the recorded columns, matrix and residual and the reduced inertia and bias |
| `Passes.WeldedReduces` | scripts/generate_spatial_v2_independent_aba_oracle.py:257-258 | With no columns the general reduction is the source's welded branch: inertia unchanged, bias plus inertia times Coriolis |
| `Passes.InwardPass` | scripts/generate_spatial_v2_independent_aba_oracle.py:245-280 | The in-place inward loop fails iff some joint matrix of the tree is singular; otherwise it records for each body what the recursive definitions give |
| `ForwardDynamics.Offsets` | scripts/generate_spatial_v2_independent_aba_oracle.py:196-207 | Offsets and totals count the coordinates of the bodies before each body; unsupported joint names are refused |
| `ForwardDynamics.SlicesDetermine` | scripts/generate_spatial_v2_independent_aba_oracle.py:220-222 | The slices at the offsets tile the flat vectors: equal slices mean equal vectors |
| `ForwardDynamics.BuildLinks` | scripts/generate_spatial_v2_independent_aba_oracle.py:216-224 | The setup loop computes each body's motion transform and joint columns from its slice of coordinates |
| `ForwardDynamics.WriteJoint` | scripts/generate_spatial_v2_independent_aba_oracle.py:299-302 | Writing one joint's accelerations fills exactly its own slice, leaves earlier slices alone, and adds the joint motion to the body acceleration |
| `ForwardDynamics.AccelerationPass` | scripts/generate_spatial_v2_independent_aba_oracle.py:282-304 | The outward loop writes, slice by slice, the accelerations that the recursion defines |
| `ForwardDynamics.ForwardDynamics` | scripts/generate_spatial_v2_independent_aba_oracle.py:210-304 | The whole routine: when it refuses (unknown joint, wrong counts, singular joint matrix) exactly, and on success a flat vector that is the only one satisfying the equations of motion |
| `ForwardDynamics.UnitColumnsIndependent` | scripts/generate_spatial_v2_independent_aba_oracle.py:164-190 | The unit columns of free and spherical joints are linearly independent |
| `ForwardDynamics.SubspaceIndependent` | scripts/generate_spatial_v2_independent_aba_oracle.py:164-193 | Every joint kind's columns are linearly independent |
| `ForwardDynamics.RigidBodiesAreSolvable` | scripts/generate_spatial_v2_independent_aba_oracle.py:210-304 | Bodies built by the spatial-inertia formula with positive mass and moments never make the dynamics fail |
| `PanelMesh.NewMesh` | crates/openbmp-aero/src/hypersonic.rs:104-159 | Accepts exactly meshes with vertices, triangles, in-range distinct corners and nonzero area; otherwise reports the fault of the first bad triangle |
| `PanelMesh.MultiplicityIsIncidence` | crates/openbmp-aero/src/hypersonic.rs:180-192 | How often an edge is listed is how many triangles contain it |
| `PanelMesh.RunsAreTwo` | crates/openbmp-aero/src/hypersonic.rs:193-206 | On any sorted list the index-and-count scan accepts iff every element occurs exactly twice |
| `PanelMesh.CollectEdges` | crates/openbmp-aero/src/hypersonic.rs:181-191 | The loop lists the three canonical edges of every triangle |
| `PanelMesh.ValidateWatertightManifold` | crates/openbmp-aero/src/hypersonic.rs:180-208 | Accepts iff every undirected edge lies on exactly two triangles; acceptance implies 3 triangles = 2 edges |
| `Sorting.SortSorted` | crates/openbmp-aero/src/hypersonic.rs:192 | Sorting by any total order gives an ordered sequence (a permutation by the function's own contract) |
| `PanelBvh.BoxIsHull` | crates/openbmp-aero/src/hypersonic.rs:308-329 | The box contains all vertices of its triangles and is contained in every box that does |
| `PanelBvh.AabbForTriangles` | crates/openbmp-aero/src/hypersonic.rs:308-329 | The min/max loop computes that hull box |
| `PanelBvh.LongestAxis` | crates/openbmp-aero/src/hypersonic.rs:331-342 | The returned axis has the largest extent, ties to the first |
| `PanelBvh.Halves` | crates/openbmp-aero/src/hypersonic.rs:292-302 | The sorted indices are split into two non-empty halves that together permute the input |
| `PanelBvh.HalvesAreOrdered` | crates/openbmp-aero/src/hypersonic.rs:292-302 | The split is at the median: no centroid of the left half exceeds one of the right half along the longest axis |
| `PanelBvh.PanelMeshBvh.BuildNode` | crates/openbmp-aero/src/hypersonic.rs:269-306 | The recursive builder appends to the shared node and order vectors exactly what the value-level tree builder yields at that offset, and changes nothing before it |
| `PanelBvh.FromWatertightMesh` | crates/openbmp-aero/src/hypersonic.rs:220-230 | Builds the whole tree for exactly the watertight meshes |
| `PanelBvh.OrderPermutes` | crates/openbmp-aero/src/hypersonic.rs:269-306 | The triangle order is a permutation of the indices given |
| `PanelBvh.LeavesTile` | crates/openbmp-aero/src/hypersonic.rs:269-306 | The leaf ranges, in node order, cover the slots once, without gap or overlap |
| `PanelBvh.BuildIsTree` | crates/openbmp-aero/src/hypersonic.rs:269-306 | Leaves hold one to four triangles, inner nodes have two children with larger indices, all in range |
| `PanelBvh.WholeTree` | crates/openbmp-aero/src/hypersonic.rs:220-230 | For every valid mesh the built index is such a tree over all its triangles |
| `PanelBvh.BelowIsGiven` | crates/openbmp-aero/src/hypersonic.rs:269-306 | The triangles reachable from a node are exactly those it was built for |
| `PanelBvh.BoxesNest` | crates/openbmp-aero/src/hypersonic.rs:269-329 | Every node's box contains every vertex of every triangle below it, and is contained in every box that does |
| `RayQuery.RayIntersectsAabbLoop` | crates/openbmp-aero/src/hypersonic.rs:379-410 | The axis loop that narrows the interval in place answers the slab test |
| `RayQuery.ClipMeaning` | crates/openbmp-aero/src/hypersonic.rs:389-408 | One axis clips the interval to the parameters whose coordinate lies in the slab (all or nothing when the direction component is tiny) |
| `RayQuery.SlabTestMeaning` | crates/openbmp-aero/src/hypersonic.rs:379-410 | The box test is true iff some parameter t > 1e-12 is allowed by all three slabs |
| `RayQuery.CramerX` | crates/openbmp-aero/src/hypersonic.rs:412-441 | Determinant identity behind the triangle test, first coordinate |
| `RayQuery.HitIsOnTriangle` | crates/openbmp-aero/src/hypersonic.rs:412-441 | A positive triangle test yields u, v >= 0, u + v <= 1 and t > 1e-12 with origin + t direction = a + u e1 + v e2 |
| `RayQuery.HitIsFound` | crates/openbmp-aero/src/hypersonic.rs:412-441 | Every point of a triangle that the ray meets beyond the tolerance is found, unless the ray is nearly in the plane |
| `RayQuery.TriangleTestMeaning` | crates/openbmp-aero/src/hypersonic.rs:412-441 | The triangle test is true iff the determinant exceeds the tolerance and the ray meets the triangle beyond it |
| `RayQuery.Convex` | crates/openbmp-aero/src/hypersonic.rs:412-441 | Points of a triangle stay inside every slab that holds its corners |
| `RayQuery.HitIsNotPruned` | crates/openbmp-aero/src/hypersonic.rs:355-441 | A hit inside a box passes that box's slab test, for directions whose components are zero or larger than 1e-12 |
| `RayQuery.QueryAgrees` | crates/openbmp-aero/src/hypersonic.rs:355-377 | For such directions the recursive pruned query equals the disjunction over all triangles below; without the condition a positive answer still means a hit |
| `RayQueryExactness.QueryMeaning` | crates/openbmp-aero/src/hypersonic.rs:244-262 | The query on a whole mesh against brute force: true implies a hit always, and equals it for regular directions |
| `RayQueryExactness.AskTree` | crates/openbmp-aero/src/hypersonic.rs:258-261 | The query method on a built tree returns the pruned query: a hit is always real, and for regular directions the answer is brute force's |
| `RayQueryExactness.UnitDirectionMeaning` | crates/openbmp-aero/src/hypersonic.rs:244-262 | The queried direction has length one and points as given |
| `RayQueryExactness.RayIntersects` | crates/openbmp-aero/src/hypersonic.rs:244-262 | Normalises the direction, refuses the zero vector exactly, and returns a trustworthy answer |
| `RayQueryExactness.IrregularMisses` | crates/openbmp-aero/src/hypersonic.rs:379-441 | For every unit direction with a component in (0, 1e-12] there is an origin at which a concrete watertight tetrahedron is hit but the query says no |
| `RayQueryExactness.SomeRayIsMissed` | crates/openbmp-aero/src/hypersonic.rs:379-441 | A concrete unit vector with first component about 2e-13 and an origin from which the query misses |
| `RayQueryExactness.PruningIsExactIff` | crates/openbmp-aero/src/hypersonic.rs:355-441 | For unit directions: the query equals brute force on all watertight meshes and origins iff every component is zero or larger than 1e-12 |
| `PanelLoads.AxialStationBin` | crates/openbmp-aero/src/hypersonic.rs:941-951 | The first bin that takes x, half-open except the last; none iff no bin takes it |
| `PanelLoads.StationStartsBin` | crates/openbmp-aero/src/hypersonic.rs:941-951 | A station belongs to the bin it starts, the last one to the bin it ends |
| `PanelLoads.BinIsUnique` | crates/openbmp-aero/src/hypersonic.rs:941-951 | For increasing stations a coordinate lies in exactly one bin iff it is between the end stations |
| `PanelLoads.BinsConserve` | crates/openbmp-aero/src/hypersonic.rs:835-838 | When the stations cover every centroid the bins' forces and moments sum to the totals |
| `PanelLoads.MomentShift` | crates/openbmp-aero/src/hypersonic.rs:832-834 | Moments about two reference points differ by (cg2 - cg1) x F |
| `PanelLoads.PressureIsDrag` | crates/openbmp-aero/src/hypersonic.rs:800-809 | Pressure on a panel never pushes against the flow |
| `PanelLoads.FrictionIsDrag` | crates/openbmp-aero/src/hypersonic.rs:868-892 | Friction on a panel never pushes against the flow |
| `PanelLoads.TotalIsDrag` | crates/openbmp-aero/src/hypersonic.rs:793-839 | The total force never points upstream, for every mesh, shadowing choice and friction model |
| `PanelLoads.ShadowReducesDrag` | crates/openbmp-aero/src/hypersonic.rs:793-839 | Adding occlusion never makes the upstream force component more negative |
| `PanelLoads.ValidateStations` | crates/openbmp-aero/src/hypersonic.rs:910-939 | Accepts no stations, or at least two strictly increasing ones |
| `PanelLoads.RefusesNegativeMach` | crates/openbmp-aero/src/hypersonic.rs:524-542 | With the Reynolds number bounded below, the skin-friction correlation refuses iff the Mach number is negative; its temperature check never fails |
| `PanelLoads.RefusalMeaning` | crates/openbmp-aero/src/hypersonic.rs:868-892 | Friction refuses a loaded panel for a Reynolds number that is not positive, or a sheared one for a negative Mach number |
| `PanelGeometry.FacetArea` | crates/openbmp-aero/src/hypersonic.rs:793-799 | Four times the squared panel area is the Gram determinant of its two edges |
| `PanelGeometry.FacetCentroid` | crates/openbmp-aero/src/hypersonic.rs:810 | The corners' offsets from the panel centroid cancel, and the tree sorts by that centroid |
| `PanelGeometry.FacetNormal` | crates/openbmp-aero/src/hypersonic.rs:793-799 | The panel normal has length one, is orthogonal to both edges and lies on the side from which they turn counter-clockwise |
| `PanelGeometry.PressureIsNormal` | crates/openbmp-aero/src/hypersonic.rs:800-809 | Pressure has no component along any direction in the panel |
| `PanelGeometry.HeadOn` | crates/openbmp-aero/src/hypersonic.rs:800-809 | A panel met head-on, from either side, carries exactly cpMax times dynamic pressure times area, downstream |
| `PanelGeometry.PressureIsQuadratic` | crates/openbmp-aero/src/hypersonic.rs:800-809 | The pressure force grows with the square of the incidence |
| `PanelGeometry.FrictionInPlane` | crates/openbmp-aero/src/hypersonic.rs:868-892 | Friction lies in the panel, against the stream's part along it, with magnitude dynamic pressure times coefficient times area |
| `PanelGeometry.LocalReynoldsMeaning` | crates/openbmp-aero/src/hypersonic.rs:868-892 | The local Reynolds number is proportional to the distance from the leading edge, with a floor of 1000 |
| `PanelGeometry.MinXMeaning` | crates/openbmp-aero/src/hypersonic.rs:894-899 | The leading edge is the smallest axial coordinate of the vertices |
| `PanelGeometry.LoadIsNormal` | crates/openbmp-aero/src/hypersonic.rs:793-839 | Without friction a panel's force in the integration has no component along either of its edges |
| `PanelGeometry.LoadAlongNormal` | crates/openbmp-aero/src/hypersonic.rs:793-839 | With friction the part along the normal is that of the pressure alone |
| `PanelGeometry.FacingIsLoaded` | crates/openbmp-aero/src/hypersonic.rs:800-809 | With shadowing, triangles whose edges turn counter-clockwise as seen from upstream are pushed downstream and the others carry nothing |
| `PanelGeometry.ShadowMeaning` | crates/openbmp-aero/src/hypersonic.rs:811-866 | For stream directions without tiny components, a panel facing upstream is left out iff a triangle of the shadow mesh lies upstream of its centroid beyond 1e-9 and the query's tolerance |
| `PanelLoads.Occluded` | crates/openbmp-aero/src/hypersonic.rs:859-866 | The occlusion probe answers the query from the centroid displaced 1e-9 upstream |
| `PanelLoads.SolveAboutCg` | crates/openbmp-aero/src/hypersonic.rs:761-856 | The accumulating loop returns the total and the binned loads; each of the five refusals happens exactly under its own condition, in the source's order |
| `DeckStencil.ComputeStrides` | crates/openbmp-aero/src/deck.rs:989-996 | Each stride is the number of entries below one step of its axis |
| `DeckStencil.CollectCornerIndices` | crates/openbmp-aero/src/deck.rs:1004-1030 | The bit-addressed nested loops list the 2^N corner positions, last axis fastest |
| `DeckStencil.CornerInRange` | crates/openbmp-aero/src/deck.rs:1004-1030 | All corner positions lie inside the table |
| `DeckStencil.CollapseAxis` | crates/openbmp-aero/src/deck.rs:1043-1053 | The inner loop overwriting buf[i] while reading buf[2i], buf[2i+1] leaves the blended pairs |
| `DeckStencil.MultilinearReduce` | crates/openbmp-aero/src/deck.rs:1040-1056 | The in-place, shrinking reduction computes the innermost-first fold of the gathered corners |
| `DeckStencil.FoldsAgree` | crates/openbmp-aero/src/deck.rs:1033-1056 | Reducing the innermost axis first gives the same as the outermost axis first, for every N |
| `DeckStencil.FoldIsInterpolation` | crates/openbmp-aero/src/deck.rs:1004-1056 | Folding the corner values is the recursive block-by-block multilinear interpolant |
| `DeckStencil.ReductionIsInterpolation` | crates/openbmp-aero/src/deck.rs:989-1056 | Strides, corner stencil and reduction together compute the multilinear interpolant, for every number of axes |
| `DeckStencil.ResultBounded` | crates/openbmp-aero/src/deck.rs:1040-1056 | The result stays between any bounds of the 2^N corner entries |
| `DeckInterpolation.AdjacentCellsAgree` | crates/openbmp-aero/src/deck.rs:1004-1056 | At breakpoints of any axes either adjacent cell gives the same interpolant, wherever the other coordinates are |
| `AeroDeck.ValidateAxisOrder` | crates/openbmp-aero/src/deck.rs:1064-1096 | Accepts exactly three to six distinct names beginning mach, alpha, beta |
| `AeroDeck.NewND` | crates/openbmp-aero/src/deck.rs:446-484 | Accepts exactly well-formed decks, with the table length equal to the product of the axis lengths; tells shape faults from bad references |
| `AeroDeck.WithSigmaTables` | crates/openbmp-aero/src/deck.rs:512-528 | Accepts exactly tables of the deck's size without negative entries; the first fault in table order is reported |
| `AeroDeck.WithDynamicDerivativeTables` | crates/openbmp-aero/src/deck.rs:541-588 | Attaches the damping tables with zero cross terms, refusing exactly wrong sizes |
| `AeroDeck.PartitionPoint` | crates/openbmp-aero/src/deck.rs:1278 | The number of leading axis points not above the query |
| `AeroDeck.BracketMeaning` | crates/openbmp-aero/src/deck.rs:1230-1283 | Succeeds iff clamping or inside; the place fits its axis, its fraction is in [0, 1] and it stands for the query moved into the grid; clamping is fail-closed bracketing of the clamped query |
| `AeroDeck.BracketOnNode` | crates/openbmp-aero/src/deck.rs:1230-1283 | A query on a grid point is placed on that node |
| `DeckLookup.LookupStencil` | crates/openbmp-aero/src/deck.rs:931-980 | Answers iff every axis can be bracketed; otherwise reports the first axis' error; effector axes are read by name |
| `DeckLookup.Lookup` | crates/openbmp-aero/src/deck.rs:784-798 | All three coefficients are the multilinear interpolants of their own tables, with exactly the stencil's errors |
| `DeckLookup.LookupSigma` | crates/openbmp-aero/src/deck.rs:812-829 | None iff there are no tables; otherwise interpolated and never negative |
| `DeckLookup.LookupDynamicDerivatives` | crates/openbmp-aero/src/deck.rs:873-896 | None iff there are no tables; otherwise nine interpolants of nine tables |
| `DeckLookup.AnsweredExactly` | crates/openbmp-aero/src/deck.rs:931-980 | A query is answered iff every effector has a deflection and, under fail-closed, every coordinate is inside its axis |
| `DeckLookup.ValueBounded` | crates/openbmp-aero/src/deck.rs:1040-1056 | A looked-up value lies between any bounds of the 2^N surrounding entries |
| `DeckLookup.ValueIsOfTheQuery` | crates/openbmp-aero/src/deck.rs:931-1056 | The value is that of any placement standing for the same point of the grid, so it does not depend on which adjacent cell bracketing picked |
| `DeckLookup.ClampIsFailClosedInside` | crates/openbmp-aero/src/deck.rs:1230-1283 | Under clamping every lookup equals the fail-closed lookup at the coordinate-wise clamped query |
| `DeckLookup.ExactLookup` | crates/openbmp-aero/src/deck.rs:931-1056 | Tables sampled from any function affine in each axis separately are looked up exactly at every in-grid query |
| `DeckLookup.CoordinatesByName` | crates/openbmp-aero/src/deck.rs:931-980 | The first three coordinates are Mach number, angle of attack and sideslip, the others the deflections of the effectors naming their axes |
| `DeckLookup.ExactOnThree` | crates/openbmp-aero/src/deck.rs:931-1056 | On three axes a table of samples of g(mach, alpha, beta) answers g at the query |
| `DeckLookup.NodeLookup` | crates/openbmp-aero/src/deck.rs:931-1056 | At a grid node every policy answers with the stored entry, whichever cell is used |
| `DeckLookup.EntryOfThree` | crates/openbmp-aero/src/deck.rs:984-996 | On three axes entry (i, j, k) is stored at (i nj + j) nk + k |
| `DeckLookup.Trilinear` | crates/openbmp-aero/src/deck.rs:1033-1056 | On three axes the lookup is the explicit trilinear formula over eight stored corners |
| `DeckLookup.SliceLaw` | crates/openbmp-aero/src/deck.rs:931-1056 | At a breakpoint of the last effector axis, lookup equals lookup in the well-formed deck of that slice, one axis shorter, for every table and query |
| `CorrelationMatrix.Remainder` | crates/openbmp-aero/src/deck.rs:1207-1210 | The innermost loop leaves the entry minus the inner product of the two rows so far |
| `CorrelationMatrix.FactoredIsDefinite` | crates/openbmp-aero/src/deck.rs:1204-1220 | A completed factor reproduces the lower triangle with a positive diagonal, and the matrix is positive definite, for every size |
| `CorrelationMatrix.BadPivotIsIndefinite` | crates/openbmp-aero/src/deck.rs:1211-1214 | A pivot that is not positive means the matrix is not positive definite: a direction in which the form is not positive exists |
| `CorrelationMatrix.ValidateCorrelationMatrix` | crates/openbmp-aero/src/deck.rs:1176-1222 | Accepts iff the entry checks hold and the matrix mirrored from the lower triangle is positive definite; on acceptance the factor has been built |
| `CorrelationForm.FormsClose` | crates/openbmp-aero/src/deck.rs:1196-1202 | For every matrix that passes the entry checks, its own quadratic form and that of the mirrored matrix differ by at most half the tolerance for each other component |
| `CorrelationForm.AcceptedFormBound` | crates/openbmp-aero/src/deck.rs:1176-1222 | The form of an accepted matrix itself is above minus that margin in every direction |
| `CorrelationForm.SymmetricIsMirrored` | crates/openbmp-aero/src/deck.rs:1196-1202 | The mirrored matrix is the stored one iff that is exactly symmetric, and then acceptance is about the matrix itself |
| `CorrelationForm.SomeAcceptedIsIndefinite` | crates/openbmp-aero/src/deck.rs:1176-1222 | A concrete accepted matrix whose own form is negative in a direction |
| `DeckBaking.InclusiveGrid` | crates/openbmp-aero/src/buildup.rs:915-937 | Evenly spaced points from min to max, accepted iff there are steps and max >= min; strictly increasing iff one step or min < max |
| `DeckBaking.ValidateGrid` | crates/openbmp-aero/src/buildup.rs:177-195 | Accepts exactly increasing axes with sideslip at zero and a positive Reynolds number |
| `DeckBaking.TableEntry` | crates/openbmp-aero/src/buildup.rs:617-636 | What the nested pushes put at row-major position (i, j, k) is the value of pair (i, j) |
| `DeckBaking.PushTables` | crates/openbmp-aero/src/buildup.rs:690-713 | The triple loop fails with the first correlation to fail in loop order; otherwise the six vectors hold the node values in push order |
| `DeckBaking.BakeDeck` | crates/openbmp-aero/src/buildup.rs:673-725 | Both buildups: success iff geometry, grid, references and every node are good; the deck then holds each node's coefficients and derivatives |
| `DeckBaking.BakedLookup` | crates/openbmp-aero/src/buildup.rs:603-647 | Bake then look up: at every grid node the deck answers with the coefficients, and derivatives, computed there |
| `DeckBaking.ReynoldsMeaning` | crates/openbmp-aero/src/buildup.rs:617-620 | The Reynolds number is the largest of the value proportional to Mach, the value at the Mach floor, and the envelope's floor |
| `DeckBaking.BakedFlow` | crates/openbmp-aero/src/buildup.rs:617-636 | A baked node holds the coefficients at its Mach number, at that Reynolds number and at its angle of attack in radians |
| `PlanformGeometry.WeightedIsPairs` | crates/openbmp-aero/src/buildup.rs:1351-1363 | The 1-4-2-...-4-1 weights are Simpson's rule pair by pair, for every even step count |
| `PlanformGeometry.SimpsonOnce` | crates/openbmp-aero/src/buildup.rs:1351-1364 | Simpson's rule is exact on every cubic over any interval |
| `PlanformGeometry.PairsExact` | crates/openbmp-aero/src/buildup.rs:1351-1364 | The composite rule is exact on every function that is cubic at the samples |
| `PlanformGeometry.NosePlanform` | crates/openbmp-aero/src/buildup.rs:1345-1365 | The quadrature loop computes the composite rule for the width and its first moment |
| `PlanformGeometry.ConeIsExact` | crates/openbmp-aero/src/buildup.rs:1345-1370 | On a cone the loop gives R L and 2 R L^2 / 3, for every even step count |
| `PlanformGeometry.NoseMomentBounded` | crates/openbmp-aero/src/buildup.rs:1345-1365 | For any nose with no negative radius the computed moment lies between zero and length times area |
| `PlanformGeometry.BodyPlanform` | crates/openbmp-aero/src/buildup.rs:1322-1343 | Refuses iff the area is not positive; otherwise the area and the clamped centroid of the three parts |
| `PlanformGeometry.ConicalBodyIsExact` | crates/openbmp-aero/src/buildup.rs:1322-1343 | For a conical nose area and moment are the exact integrals of the cone, cylinder and frustum widths |
| `PlanformGeometry.FrustumIsIntegral` | crates/openbmp-aero/src/buildup.rs:1391-1401 | The afterbody formulas are the exact integrals of the tapering width, which meets both end diameters |
| `PlanformGeometry.ClampIsIdle` | crates/openbmp-aero/src/buildup.rs:1342 | When nose and afterbody fit the body the centroid clamp never acts, for any nose shape |
| `PlanformGeometry.NosesAreProper` | crates/openbmp-aero/src/buildup.rs:1367-1390 | The ogive, von Karman, hemispherical and conical formulas never give a negative radius |
| `NoseShapes.OgiveIsCircle` | crates/openbmp-aero/src/buildup.rs:1371-1378 | Ogive points lie on the circle of the generating radius |
| `NoseShapes.OgiveEnds` | crates/openbmp-aero/src/buildup.rs:1371-1378 | At least half a diameter long, an ogive is pointed and ends at the body radius |
| `NoseShapes.HemisphereIsCircle` | crates/openbmp-aero/src/buildup.rs:1384-1388 | Hemisphere points lie on the circle of the body radius, pointed at the tip and full at the base |
| `NoseShapes.HemisphereIsOgive` | crates/openbmp-aero/src/buildup.rs:1371-1388 | The hemisphere is the ogive as long as its radius |
| `NoseShapes.VonKarmanEnds` | crates/openbmp-aero/src/buildup.rs:1379-1383 | The von Karman nose is pointed and ends at the body radius |
| `NoseShapes.VonKarmanProfile` | crates/openbmp-aero/src/buildup.rs:1379-1383 | Its squared radius is the squared base radius times (t - sin t cos t) / pi with cos t = 1 - 2 x / L |
| `PlanformGeometry.ClampOnNoses` | crates/openbmp-aero/src/buildup.rs:1322-1390 | On a body with any of those noses the clamp acts iff the summed moment is negative, which needs nose and afterbody to overlap |
| `PlanformGeometry.ClampActsExactly` | crates/openbmp-aero/src/buildup.rs:1342 | For every body with no negative radius the clamp changes the centroid iff the summed moment is negative, and then puts it at the nose tip |
| `PlanformGeometry.OverlapClampsExactly` | crates/openbmp-aero/src/buildup.rs:1322-1342 | For conical noses the condition in the dimensions: nose and afterbody overlap and the afterbody's moment outweighs the nose's |
| `PlanformGeometry.SomeCentroidIsClamped` | crates/openbmp-aero/src/buildup.rs:1322-1342 | A concrete accepted body with positive area and a negative centroid before clamping |
| `Directivity.NewCurve` | crates/openbmp-acoustics/src/dsm.rs:1219-1277 | Accepts exactly well-formed curves; otherwise reports the first fault in the order of the checks |
| `Directivity.NewDeck` | crates/openbmp-acoustics/src/dsm.rs:2067-2110 | Accepts exactly well-formed band decks; otherwise reports the first fault in the order of the checks |
| `Directivity.ToDirectivityDeck` | crates/openbmp-acoustics/src/dsm.rs:1338-1356 | Bakes the deck row by row from the curve; refuses exactly bad exit geometry or a bad band grid, a centre that is not positive before any other fault of the grid |
| `Directivity.CurveByColumns` | crates/openbmp-acoustics/src/dsm.rs:1297-1330 | The angle-then-Strouhal lookup equals the Strouhal-then-angle one |
| `Directivity.CurveOnAngle` | crates/openbmp-acoustics/src/dsm.rs:1297-1330 | At a grid angle the lookup is that column's Strouhal blend, whichever cell is used |
| `Directivity.DeckAgrees` | crates/openbmp-acoustics/src/dsm.rs:1297-1356 | The baked deck agrees with the curve at every band and every non-negative angle, including breakpoints and both clamped ends |
| `DirectivityExactness.CurveOnNode` | crates/openbmp-acoustics/src/dsm.rs:1297-1330 | At every node the curve lookup returns the stored entry |
| `DirectivityExactness.CurveIsExact` | crates/openbmp-acoustics/src/dsm.rs:1297-1330 | A table sampled from any function affine in the angle and in the logarithm of the Strouhal number is reproduced at every point inside the grid, and outside at the nearest end |
| `DirectivityExactness.CurveOutside` | crates/openbmp-acoustics/src/dsm.rs:1297-1330 | Outside the grid any curve is what it is at the nearest end |
| `DirectivityExactness.BakedNode` | crates/openbmp-acoustics/src/dsm.rs:1338-1356 | A band whose centre times diameter is a Strouhal node times velocity gets the stored entries at every angle of the curve |
| `SourceAllocation.SortedIsValid` | crates/openbmp-acoustics/src/dsm.rs:1720-1744 | The sorted sources pass the checks iff the given ones are in range, at distinct places and sum to one |
| `SourceAllocation.NewAllocation` | crates/openbmp-acoustics/src/dsm.rs:1720-1744 | Sorts by axial position and accepts exactly non-empty in-range sources at distinct places whose fractions sum to one within 1e-12; otherwise reports the first fault of the sorted list |
| `SourceAllocation.NormalizedFromWeights` | crates/openbmp-acoustics/src/dsm.rs:1751-1770 | Succeeds exactly on non-negative weights at distinct non-negative places with positive total; the fractions sum to exactly one and pass the constructor; weights are faulted before their total, both before places |
| `SourceAllocation.WidthsTelescope` | crates/openbmp-acoustics/src/dsm.rs:624-633 | The tributary widths sum to the distance between the first and last point |
| `SourceAllocation.ToSourceAllocation` | crates/openbmp-acoustics/src/dsm.rs:618-640 | Every valid curve with a positive core length gives one positive fraction per point, in the curve's order, summing to one |
| `AxialWeights.EqualLevels` | crates/openbmp-acoustics/src/dsm.rs:618-640 | On equal levels each fraction is the part of the curve between the midpoints around its point, over the distance between the ends |
| `AxialWeights.SourcesAtStations` | crates/openbmp-acoustics/src/dsm.rs:618-640 | Sources sit at the points' stations times the core length |
| `AxialWeights.TenDecibels` | crates/openbmp-acoustics/src/dsm.rs:618-640 | Ten decibels more multiply a point's weight by ten to the one and change nothing else |
| `StationSpectra.NormalizeBandWeights` | crates/openbmp-acoustics/src/dsm.rs:3711-3725 | Normalised band weights form a valid spectrum shape that sums to exactly one; weights are faulted before their total, both before the bands |
| `StationSpectra.NormalizeSourceBandWeights` | crates/openbmp-acoustics/src/dsm.rs:2000-2031 | The whole source-by-band matrix is non-negative and sums to exactly one after normalisation; otherwise the first fault in the order of the checks |
| `StationSpectra.NewSpectrum` | crates/openbmp-acoustics/src/lib.rs:404-428 | Accepts exactly one level per band of a valid grid whose edges are in order; otherwise reports the first fault |
| `StationSpectra.EvaluateFreeField` | crates/openbmp-acoustics/src/dsm.rs:2613-2657 | Levels of the summed source contributions; succeeds iff the set-up is valid, every band pressure positive and every lower edge below its upper edge; otherwise reports environment, band grid, pressure or edges, in that order |
| `StationSpectra.EvaluateSourceBandWeighted` | crates/openbmp-acoustics/src/dsm.rs:2720-2774 | The same for fractions of each source's own, with the source count checked after the environment |
| `StationSpectra.PressuresProportional` | crates/openbmp-acoustics/src/dsm.rs:2632-2774 | With separable weights normalised by T, T times the source-band pressure is the free-field pressure, band by band |
| `StationSpectra.SeparableSum` | crates/openbmp-acoustics/src/dsm.rs:2010-2022 | That total T is the product of the two fraction sums |
| `StationSpectra.EvaluatorsAgreeExactly` | crates/openbmp-acoustics/src/dsm.rs:2613-2774 | For every valid set-up both evaluators give the same pressures in all bands iff T = 1 |
| `StationSpectra.TotalNearOne` | crates/openbmp-acoustics/src/dsm.rs:1720-1744 | The total T is one up to what the constructors tolerate of the two sums |
| `StationSpectra.EvaluatorsDiffer` | crates/openbmp-acoustics/src/dsm.rs:1720-1744 | A set-up that every constructor and both evaluators accept, whatever the math library, and on which their pressures differ |
| `StationSpectra.FreeFieldSucceeds` | crates/openbmp-acoustics/src/dsm.rs:2648-2652 | An otherwise valid evaluation succeeds iff every band fraction is positive and every lower edge below its upper edge |
| `StationSpectra.WeightedPressurePositive` | crates/openbmp-acoustics/src/dsm.rs:2742-2769 | A band of the source-band evaluator has positive pressure iff some source has a positive fraction in it |
| `StationSpectra.SourceBandSucceeds` | crates/openbmp-acoustics/src/dsm.rs:2742-2769 | An otherwise valid source-band evaluation succeeds iff every band is radiated by some source and every lower edge is below its upper edge |
| `SpectraLaws.DistanceSquared` | crates/openbmp-acoustics/src/dsm.rs:1826-1829 | The source-receiver distance is Euclidean |
| `SpectraLaws.AngleMeaning` | crates/openbmp-acoustics/src/dsm.rs:1831-1834 | The angle is the one of the right triangle with the radial distance opposite and the axial distance beside it |
| `SpectraLaws.OneSourceInTheOpen` | crates/openbmp-acoustics/src/dsm.rs:2632-2647 | Without absorption and directivity one source's pressure over the sphere through the receiver is its acoustic power times the impedance |
| `SpectraLaws.LevelOfReference` | crates/openbmp-acoustics/src/lib.rs:142-145 | A mean-square pressure of twenty micropascals squared is zero decibels |
| `SpectraLaws.LevelMeaning` | crates/openbmp-acoustics/src/lib.rs:142-145 | Ten to the k/10 times the pressure is k decibels more |
| `SpectraLaws.FreeLevelLouder` | crates/openbmp-acoustics/src/dsm.rs:2632-2652 | Raising the directivity of every source by d decibels raises the free-field level by exactly d |
| `SpectraLaws.WeightedLevelLouder` | crates/openbmp-acoustics/src/dsm.rs:2742-2769 | The same of the source-band evaluator |
| `SpectraLaws.FreeLevelDuller` | crates/openbmp-acoustics/src/dsm.rs:2632-2652 | Absorbing k decibels per metre more lowers a single source's free-field level by k times the path length |
| `SpectraLaws.WeightedLevelDuller` | crates/openbmp-acoustics/src/dsm.rs:2742-2769 | The same of the source-band evaluator |
| `SpectraLaws.FreePressureDuller` | crates/openbmp-acoustics/src/dsm.rs:2632-2647 | More absorption never raises a band pressure of the free-field evaluator, for any number of sources |
| `SpectraLaws.WeightedPressureDuller` | crates/openbmp-acoustics/src/dsm.rs:2742-2764 | The same of the source-band evaluator |
| `StationSpectra.FlatBandIsAdmitted` | crates/openbmp-acoustics/src/dsm.rs:3728-3749 | Shapes, decks and propagation accept a band whose edges coincide; with every pressure positive neither evaluator can succeed on it |
| `Framing.PrefixRoundTrip` | crates/openbmp-bridge/src/codec.rs:49-55 | Four little-endian bytes and lengths below 2^32 determine each other |
| `Framing.LeastSignificantFirst` | crates/openbmp-bridge/src/codec.rs:49-55 | The first prefix byte is the least significant |
| `Framing.FrameLayout` | crates/openbmp-bridge/src/codec.rs:42-55 | A frame is prefix then payload; payloads beyond the prefix are announced by four bytes of 255 |
| `Framing.FrameVector` | crates/openbmp-bridge/src/codec.rs:49-55 | Extends an empty vector by the announced length and the payload |
| `Framing.FrameInto` | crates/openbmp-bridge/src/codec.rs:67-87 | Writes exactly the frame and leaves the rest of the buffer alone; refusals leave the buffer untouched and carry the source's bounds |
| `Framing.DeframeMeaning` | crates/openbmp-bridge/src/codec.rs:100-113 | Deframing returns a payload iff the buffer begins with the frame of that payload |
| `Framing.FrameRoundTrip` | crates/openbmp-bridge/src/codec.rs:42-55 | A frame is read back whole iff its payload is shorter than 2^32 |
| `Framing.ProperPrefixRefused` | crates/openbmp-bridge/src/codec.rs:100-113 | Every proper prefix of a frame is refused, with the exact error |
| `Framing.StreamRoundTrip` | crates/openbmp-bridge/src/codec.rs:49-113 | Draining any concatenation of frames, followed by any incomplete tail, returns the payloads in order and leaves precisely the tail |
| `Framing.DrainIsStream` | crates/openbmp-bridge/src/codec.rs:100-113 | Conversely any buffer is the frames of what was drained followed by an incomplete rest |
| `Framing.DrainLoop` | crates/openbmp-bridge/src/codec.rs:89-113 | The cursor loop over consumed counts computes that draining |
| `Framing.UniquelyDecodable` | crates/openbmp-bridge/src/codec.rs:42-113 | Equal streams of frames carry equal payload lists |
| `FramePump.Pump.constructor` | crates/openbmp-pil/src/lib.rs:642-649 | Empty buffers of the given capacities |
| `FramePump.Pump.Ingest` | crates/openbmp-pil/src/lib.rs:665-682 | Appends a chunk whole or refuses it whole, exactly when it does not fit |
| `FramePump.Pump.OutputFrame` | crates/openbmp-pil/src/lib.rs:692-698 | The pending command frame, if any |
| `FramePump.Pump.ClearOutputFrame` | crates/openbmp-pil/src/lib.rs:701-703 | Drops the pending command and keeps the input |
| `FramePump.Pump.Clear` | crates/openbmp-pil/src/lib.rs:652-655 | Drops buffered input and pending output |
| `FramePump.Pump.TryStep` | crates/openbmp-pil/src/lib.rs:714-749 | Pending output blocks; an incomplete frame waits; otherwise the controller is offered the front payload, and only a reply that fits consumes the frame, shifts the rest and makes the framed command pending; each kind of failure has its own error and leaves the frame in front; the payload offered and its outcome are appended to the history |
| `FramePump.Pump.Settle` | crates/openbmp-pil/src/lib.rs:724-738 | Every payload shown to the controller is recorded with whether its reply was a command that fits: if so the frame is consumed and the command pending, otherwise the input is as before, nothing is pending and the error is that of the reply |
| `FramePump.Pump.Deliver` | crates/openbmp-pil/src/lib.rs:732-738 | Consumes exactly the front frame: the framed command becomes pending and the rest of the input moves to the front |
| `PumpRuns.Consume` | crates/openbmp-pil/src/lib.rs:724-735 | Consuming the front frame moves it from the buffered to the consumed bytes: no byte is lost or repeated |
| `PumpRuns.RunKeeps` | crates/openbmp-pil/src/lib.rs:622-749 | Over every run of arriving chunks and accepted or refused offers: received bytes are the consumed frames plus the buffered bytes, refused payloads are offered again, and the accepted ones are those consumed |
| `PumpRuns.ConsumedInOrder` | crates/openbmp-pil/src/lib.rs:622-749 | However a stream is cut into chunks and interleaved with steps, the payloads consumed are the first ones sent, in order; it is all of them iff the pump waits |
| `PumpRuns.WaitingForNext` | crates/openbmp-pil/src/lib.rs:714-749 | In the middle of a stream the pump waits iff it holds a proper beginning of the next frame |
| `PumpRuns.RoomForNext` | crates/openbmp-pil/src/lib.rs:665-749 | A waiting pump whose next frame fits its buffer has room for all of that frame |
| `PumpRuns.DeadIsFullAndWaiting` | crates/openbmp-pil/src/lib.rs:665-749 | No event changes the pump any more iff it waits with a full buffer |
| `PumpRuns.NeverStuckExactly` | crates/openbmp-pil/src/lib.rs:665-749 | No run of a stream gets dead before all of it is consumed iff every frame fits the input buffer |
| `PumpRuns.FinishableExactly` | crates/openbmp-pil/src/lib.rs:665-749 | From every point of every run, all that was sent can still be consumed iff every frame fits the input buffer |
| `PumpRuns.OversizedBlocks` | crates/openbmp-pil/src/lib.rs:665-749 | In no run is a frame longer than the input buffer consumed, nor anything after it |
| `FramePump.PumpDelivers` | crates/openbmp-pil/src/lib.rs:622-749 | At any moment of a pump: what it consumed is a prefix of what was sent, all of it iff it waits, and never at or past a frame that exceeds its buffer |
| `FramePump.WaitingHasRoom` | crates/openbmp-pil/src/lib.rs:665-749 | A pump that waits for a frame that fits holds a proper beginning of it and has room for the rest |
| `FramePump.RefusedIsOfferedAgain` | crates/openbmp-pil/src/lib.rs:714-749 | A payload whose step failed is what the controller is offered next; without those repeats it was offered what was consumed |

## Left out

- IEEE rounding, NaN and infinity checks, and the repository's claims of bit-identical results.
- The values of the transcendental functions and the physical truth of the correlations.
- Six-coefficient tables and their sigmas, and the full nine-table derivative setter: the same checks and the same stencil as the tables modelled.
- TOML parsing, provenance metadata, hashing, CSV rendering, error texts and accessors.
- `postcard` encoding of messages: the frame pump's controller is any function from payload bytes to reply bytes or an error.
- Overflow of products of axis lengths in `usize`, and of the frame length on targets whose `usize` is 32 bits.
- The values of the skin-friction correlation, and local-inclination methods other than the panel integrator.
- Air-absorption profiles, plume deflection, apparent-source and lift-off evaluators of the acoustics crate: the same accumulation with other geometry.
- Station identifiers and other text fields, including their emptiness checks.
- Random case generation and printing in the forward-dynamics script; numpy's own pivoting strategy beyond its result.
- PanelBvh.AabbForTriangles: the empty list, whose box the source leaves at infinities, is an absent box; no caller passes it.
- DeckBaking.BakeDeck: the two bake routines are one method, with the derivatives of the DATCOM extension optional; each correlation is a parameter.
- PlanformGeometry.NosePlanform: a nose that is not conical is any radius function of the clamped position; the program's three are `NoseOf`. Nose lengths from half-angle or fineness are parameters.
- FramePump.Pump.TryStep: the bytes a failed step may leave in the output storage are unconstrained, since they are never exposed; failures of `postcard` encoding are errors of the controller.
- PanelLoads.SolveAboutCg: the value of the skin-friction correlation is a parameter; its refusals are modelled, those for values that are not finite are not.

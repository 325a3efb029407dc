# 3D particle simulator: a verified model of the physics kernel

This project models, in Dafny, the physics kernel of a browser particle
simulator. Spheres fall under gravity inside an axis-aligned box. They bounce
off its walls with a restitution of 0.6 and push each other apart on overlap.
While the mouse is held, they are pushed away from a picked point or pulled
towards it.

Modules:

- `Vector` (vector.dfy): the `vec3` arithmetic the kernel uses.
- `Wrappers` (wrappers.dfy): an `Option` for absent values (`null`, a missing radius).
- `Collision` (collision.dfy): collision.js.
  - `RectangularContainer` is a class with the two corner fields that app.js reassigns.
  - The container pass and the pairwise pass are methods over an `array` of particles.
  - Each pass is proved equal to a function on sequences (`WallPass`, `PairwisePass`).
  - The physical properties are proved about those functions.
- `App` (app.dfy): the simulation part of app.js.
  - the grid layout of `regenerateParticles`;
  - the physics of one `animate` frame (gravity, Euler integration, wall pass, two pairwise passes, model-matrix sync, push/pull);
  - the particle-size and container-scale controls;
  - `intersectRayAABB`.
  - The global state (`particles`, `sphereModelMatrices`, `particleRadius`, `container`) is the class `Simulation`.
- `Icosphere` (icosphere.dfy): `createIcosphere` of init-buffers.js.
  - The vertex list and the midpoint cache it closes over are the fields of `IcosphereBuilder`.
  - The method proves the triangle and index counts and that every index names a vertex.

Nondeterministic and foreign parts are parameters:

- `Math.sqrt` and `vec3.length` are a function `sqrt: real -> real`. Lemmas that need it to be a square root require `IsSqrt(sqrt)`.
- The frame time is the parameter `dt`.
- The icosphere's `normalize` is a parameter.
- The mouse state is an `Interaction` value.

Facts about the code that the model keeps:

- `regenerateParticles` gives every new particle the literal radius `1` (app.js:458), whatever the particle-size setting; a new grid keeps radius 1 until the size slider is next moved.
- The first grid particles lie at y = z = -20 (app.js:453-455; see `App.GridFirstCells`): the y layer `floor(i / 400)` and the z row `floor((i % 400) / 20)` both start at cell 0, which maps to -20.
- `handleParticleCollisions` adds the radii without the `|| 0` default that the wall test uses (collision.js:67 against collision.js:23). A particle without a radius therefore bounces off walls as a point but never collides with another particle. `Collision.Overlapping` requires both radii to be present.

## Model

| member | source | states |
|---|---|---|
| Collision.WallAxis | collision.js:25-37 | One axis of `collide`. Nothing changes exactly when the sphere is between both walls. Through the min wall, it is placed against that wall, moving inward at 0.6 of its speed. Only when the min wall was not hit, the max wall does the same. Speed never grows. In a box at least 2r wide the sphere ends up inside. |
| Collision.Collided | collision.js:20-39 | `collide` keeps the radius and returns the particle unchanged exactly when it is already inside the box on all three axes. |
| Collision.CollidedContained | collision.js:26-37 | After `collide`, a particle whose diameter fits the box lies within `[min + r, max - r]` on every axis. |
| Collision.CollidedInside | collision.js:26-38 | A particle already inside the box is left exactly as it is. |
| Collision.CollidedIdempotent | collision.js:20-39 | A second `collide` in a box that fits the particle changes nothing. |
| Collision.RectangularContainer.constructor | collision.js:9-12 | The container's corners are copies of the given corners. |
| Collision.RectangularContainer.Collide | collision.js:20-39 | The per-axis loop of `collide` computes exactly `Collided(min, max, particle)`. |
| Collision.WallPass | collision.js:47-51 | Every particle, in order and with the count kept, is replaced by its collision against the container. |
| Collision.HandleContainerCollisions | collision.js:47-51 | The loop over the particle array leaves the array equal to `WallPass` of its old contents. |
| Collision.WallPassContained | collision.js:47-51 | After the wall pass every particle that fits the box is inside it. |
| Collision.ContactDistance | collision.js:66-69 | `Math.sqrt(dist2) \|\| rSum` is never zero. For distinct centres it is the positive distance between them. For coincident centres it falls back to the sum of the radii. |
| Collision.ResolvePair | collision.js:61-94 | Radii are kept. A pair that does not overlap is returned unchanged. The sum of the two positions and the sum of the two velocities (momentum, equal masses) are preserved. An overlapping pair already moving apart along the normal keeps its velocities. |
| Collision.ResolveCoincident | collision.js:69-78 | Two overlapping particles at the same point are not moved: the normal is the zero vector. |
| Collision.ResolveTouches | collision.js:69-78 | Two overlapping particles at distinct points end exactly touching: their new distance is the sum of the radii. |
| Collision.ResolveRestitution | collision.js:80-93 | For an approaching pair at distinct points, the relative speed along the normal afterwards is -0.6 times the speed before. |
| Collision.PairsFrom | collision.js:59-60 | The remaining pairs `(i, j), (i, j+1), ...` in the loop's lexicographic order keep the count and every radius. |
| Collision.HandleParticleCollisions | collision.js:58-97 | The nested loops leave the array equal to `PairwisePass` of its old contents, the pairs being resolved in order. |
| Collision.PairwisePassConserves | collision.js:59-94 | The pairwise pass preserves the total momentum (sum of velocities) and the sum of positions (centre of mass). |
| Collision.PairwisePassSeparated | collision.js:66-68 | When no two particles overlap, the pairwise pass changes nothing. |
| App.GridPosition | app.js:451-455 | Particle `i` lies at x and z in [-20, 18] and y at least -20. It is within the 20 x 20 x 20 cube exactly when i < 8000. |
| App.GridPositionInjective | app.js:453-455 | No two grid particles share a position. |
| App.GridFirstCells | app.js:453-455 | The grid starts at (-20, -20, -20) and runs along x, then z, then y. The last cell of the cube is (18, 18, 18). |
| App.HalfExtent | app.js:257 | The half extent is `20 * containerScale`. |
| App.GridInsideContainer | app.js:453-458 | With a half extent of at least 21, every particle of the first 8000 of a fresh grid (radius 1) starts inside the container. |
| App.Gravitate | app.js:565-566 | Gravity changes only the y velocity, by `-g * dt`. Position and radius are kept. |
| App.ApplyGravity | app.js:565-566 | The gravity loop applies `Gravitate` to every particle in place. |
| App.GravitatedMomentum | app.js:565-566 | A frame's gravity adds `n * (0, -g * dt, 0)` to the total momentum of `n` particles. |
| App.Advance | app.js:672-674 | Explicit Euler: the position moves by `velocity * dt`. Velocity and radius are kept. |
| App.IntegratePositions | app.js:672-674 | The integration loop applies `Advance` to every particle in place. |
| App.Interact | app.js:687-699 | Push/pull never moves a particle or changes its radius. Within 0.01 of the point it changes nothing. |
| App.InteractDelta | app.js:693-696 | Outside the dead zone the velocity change is `+-100 * dt` times the unit vector from the particle to the point: `+` for pull, `-` for push. |
| App.InteractKick | app.js:690-696 | Outside the dead zone the velocity change has length `100 * dt`. It points towards the point for pull and away from it for push. |
| App.ApplyInteraction | app.js:689-698 | The push/pull loop applies `Interact` to every particle in place. |
| App.SyncModelMatrices | app.js:682-685 | Every model matrix is the translation to its particle's position. |
| App.FrameKeepsRadii | app.js:672-699 | A frame keeps the number of particles, their order and every radius. |
| App.FrameMomentum | app.js:565-681 | Without push/pull and with no particle reaching a wall, the total momentum changes in a frame only by gravity's `n * (0, -g * dt, 0)`. |
| App.Simulation.constructor | app.js:257-259 | After `initUI` and `regenerateParticles(NUM_SPHERES)` the container is `[-h, h]^3` with `h = 20 * scale`, the store is a fresh grid with one model matrix per particle, and the particle arrays and the container are new objects that the later handlers may update. |
| App.Simulation.RegenerateParticles | app.js:448-460 | The store is replaced by `count` fresh grid particles: at rest, radius 1, each model matrix at its particle. The radius setting is kept. |
| App.Simulation.SetParticleRadius | app.js:302-309 | Every particle gets the new radius. Positions, velocities, count and matrices are kept, so there is still one matrix per particle. |
| App.Simulation.SetContainerScale | app.js:269-271 | The container's corners become `(-h, -h, -h)` and `(h, h, h)` with `h = 20 * scale`. |
| App.Simulation.Animate | app.js:565-699 | One frame leaves the store equal to `Frame` of the old store (gravity, integration, walls, two pairwise passes, push/pull). Every drawn sphere is at its particle's position. |
| App.Session | app.js:715-724 | After `main()` the page handles animation frames and the size, scale and count sliders in any order. Each handler can run at every step, the store keeps one model matrix per particle, and the particle count is the last value the count slider chose, or the initial count. |
| App.IntersectRayAABB | app.js:482-495 | The slab loop, with its early `null`, returns exactly the reference answer `RayHit`. |
| App.RayMissMeaning | app.js:490-494 | `null` is returned exactly when no point of the ray at or after the origin lies in the box. |
| App.RayHitMeaning | app.js:482-495 | A returned `t` is not negative and its point is in the box. When the box is wholly ahead, `t` is the first hit. When part of the box is behind the origin (camera inside), `t` is the last hit. |
| App.SlabParameters | app.js:483-489 | The two divisions and the swap of one axis give the slab interval of that axis, entry first. |
| Icosphere.MidKey | init-buffers.js:48 | The cache key is the pair with the smaller index first, in either argument order. |
| Icosphere.MidKeyIdentifiesEdge | init-buffers.js:48 | Two edges share a key exactly when they join the same two vertices. |
| Icosphere.IcosphereBuilder.constructor | init-buffers.js:30-31 | The builder starts with no vertices and an empty cache. |
| Icosphere.IcosphereBuilder.AddVertex | init-buffers.js:40-44 | The normalised point's three coordinates are appended. Its index is the old vertex count. |
| Icosphere.IcosphereBuilder.GetMiddlePoint | init-buffers.js:47-65 | On a cache hit, the same index is returned and nothing changes. On a miss, one vertex (the normalised midpoint of the two ends) is appended, and its index is recorded under the edge's key. |
| Icosphere.IcosphereBuilder.SplitFace | init-buffers.js:111-118 | Face `[a, b, c]` becomes the four faces built from the cached midpoints of its edges. The cache only gains entries. |
| Icosphere.IcosphereBuilder.SubdivideFaces | init-buffers.js:109-120 | One pass turns `n` faces into `4n`, in order. Faces `4k .. 4k+3` are the split of face `k`. Every index names an existing vertex. |
| Icosphere.BaseMesh | init-buffers.js:84-105 | The icosahedron has 20 faces over 12 vertices. |
| Icosphere.AddIcosahedron | init-buffers.js:68-105 | The twelve `addVertex` calls create vertices 0 to 11. The face table is the icosahedron's. |
| Icosphere.FlattenAt | init-buffers.js:123-126 | Triangle `k` occupies `indices[3k .. 3k+3]`. |
| Icosphere.FlattenBelow | init-buffers.js:123-126 | Indices of faces below `n` are below `n`. |
| Icosphere.FlattenFaces | init-buffers.js:123-126 | The `forEach` loop builds the index list `Flatten(faces)`. |
| Icosphere.CreateIcosphere | init-buffers.js:28-129 | `positions` holds whole vertices. There are `60 * 4^s` indices, each naming a vertex of `positions`. `indexCount` is their number. |
| Icosphere.InitBuffersIndexCount | init-buffers.js:2-3 | The sphere `initBuffers` draws, two subdivisions, has 960 indices. |

## Left out

- Rendering is not part of this model: WebGL buffers and uploads, shaders, draw-scene.js, skybox.js, skyboxVertexShader.js and container.js. So are the camera (camera.js), DOM and UI wiring, colour decoding and the FPS counter.
- The velocity range sent to the shader for colouring (app.js:631-645) is presentation only.
- Unprojecting the mouse position into a ray (app.js, onMouseMove) is left out: the ray origin and direction are inputs of `App.IntersectRayAABB`.
- Frame timing (`requestAnimationFrame`, `deltaTime` from timestamps) is left out: `dt` is a parameter.
- Numbers are unbounded exact reals, not IEEE doubles.
  - Rounding is not modelled.
  - NaN and Infinity, including those from parsing slider text, are not modelled.
  - A radius that is `NaN` is not modelled either; a missing radius is `None`.
- App.IntersectRayAABB: requires every direction component to be non-zero. The source divides by a zero component and relies on IEEE infinities.
- Icosphere.IcosphereBuilder.GetMiddlePoint: requires both indices to name existing vertices. The source would read `undefined`, but every call made by `createIcosphere` satisfies this.
- Icosphere.CreateIcosphere: does not state the exact vertex count (`10 * 4^s + 2`: 12, 42, 162, ...), because that needs an edge-sharing argument over the face table (every edge of every level is shared by exactly two faces, so each pass adds one midpoint per edge); nor that the vertices lie on the unit sphere, because the coordinates depend on `normalize`, which is a parameter.
- Particles are values in array slots. The model therefore cannot express aliasing between particle objects, or between the `p` and `v` arrays that `collide` mutates.
- App.Simulation.RegenerateParticles: allocates fresh arrays. The source empties and refills the same two JavaScript arrays with `length = 0`; no other code holds them, so this is not observable.
- A model matrix is represented by its translation. Every matrix the simulator builds for a sphere is a pure translation of the identity.
- App.Simulation.constructor: starts from the corners `initUI` sets. For a moment before `initUI` runs, the container exists with NaN corners: app.js:463-467 reads `containerScale` before it is assigned.
- App.Interact: `interactionMode` is a string. Any value other than `'push'` pulls; the model has the two modes `Push` and `Pull`.
- `vec3.length` (a hypot) and `Math.sqrt` of the squared length are both the abstract `sqrt` of the squared length. `vec3.normalize` (multiplication by the reciprocal of the length) is division by that length.
- The other DOM listeners of app.js (gravity slider text, colour pickers, camera controls) are left out. The listeners that touch the physics are the events of `App.Session`; the text the sliders hold is parsed outside it (NaN from `parseInt`/`parseFloat` is not modelled).
- App.Simulation.Animate: models a frame that reaches the physics at app.js:672. Before it, app.js:578-581 calls `mat3`, which app.js:3 does not import. The frame therefore relies on a global `mat3` being in scope; without one, it throws right after gravity.

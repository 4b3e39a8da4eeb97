# MEFISTO triangulator and planegcs constraints: a verified model

This project models, in Dafny 4.11, the planar triangulator MEFISTO (`extern/mefisto2`) and the
polynomial constraints of planegcs (`extern/planegcs/Constraints.cpp`), and proves what they
promise. `dafny verify dfyconfig.toml` checks everything.

The triangulator works in place on flat arrays: the edge table `nosoar` (a chained hash table with a
free list), the triangles `noartr`, the tree `letree` of equilateral triangles, and the closed
contours `noarcf`. The model keeps those arrays and the code's own steps: `Table`, `Store`,
`Quadtree` and `Contour` are classes with the arrays as fields, each procedure is a method with the
loops and branches of the original, and its `ensures` ties the arrays to an abstract view:

- the table to a map from column to edge, and from unordered pair to column (`EdgeTable`);
- the mesh to the invariant `MeshInv`: every active triangle is a closed cycle of three signed
  edges that list it, and an edge lists only triangles that use it, at most one each way (`Mesh`);
- the tree to an integer lattice of triangles and middles (`Lattice`, `Tree`, `Leaves`);
- the contours to rings of vertices and what a ring carries of every odd quantity of directed edges,
  of which the signed area is one (`Contours`, `Areas`).

Coordinates are reals. Where a line number is given for `trte.c` it is the C text produced by f2c.

| files | what they hold |
|---|---|
| `EdgeTable`, `Mesh`, `Exchange` | the edge table; the mesh invariant; `mt4sqa_`, `te2t2t_` |
| `Geometry`, `Planar`, `Delaunay`, `Guard`, `Tedela` | circles, areas and disjoint triangles; one exchange on a triangulation; the guard of `tedela_`; `tedela_`, `aisoar_` |
| `Lattice`, `Tree`, `Splitting`, `Leaves`, `Counting`, `Quadtree`, `Teajte`, `Refining`, `Tehote`, `Framing` | the tree: neighbours, subdivision, points, its size, root, refinement, balancing, the rectangle |
| `Patch`, `Templates`, `Star`, `Tr3str`, `Leafmesh`, `Tiling`, `Trpite` | `f0trte_`..`f3trte_`, `tr3str_`, `trpite_` |
| `Regions`, `Mosaic`, `Paving`, `Tetrte` | disjoint leaves, the triangles of many leaves in one mesh, `tetrte_` |
| `Covered`, `Conform`, `Sides`, `Rim`, `Aptrte` | the leaves the rectangle takes in; no gap between leaves of different size; the stages of `aptrte` from the points to the mesh |
| `Contours`, `Triangles`, `Cutting`, `Trcf`, `Accounting`, `Areas`, `Flows` | `trcf0a_`..`trcf3s_`, and what a cut conserves |
| `Joining`, `Choosing`, `Emit`, `Sketching`, `Tridcf` | the two loops of `tridcf_` with `trchtd_`, and the mesh over a run |
| `Etoile`, `Focftr`, `Curves`, `Refill` | `caetoi_`, `focftr_`, and what it leaves for `tridcf_` |
| `Ranks`, `Tesuex`, `Output` | the end of `tesuex_`, the numbering of `aptrte`, `StoreResult` |
| `Constraints`, `Splines`, `Satisfied` | `error` and `grad` of planegcs; what an error of 0 means |
| `Cases`, `Flat`, `Holes`, `Unjoined` | inputs at which the code does not do what it is for |
| `Lists` | lists of column numbers |

## Model

| member | source | states |
|---|---|---|
| EdgeTable.Table.constructor | extern/mefisto2/trte.c:606-666 | after `insoar_` the table stands for the empty map and every column above the bucket heads is free |
| EdgeTable.Table.Hasoar | extern/mefisto2/trte.c:8646-8728 | the column of a pair is found exactly when the pair is an edge; otherwise one edge is added under a column that was not live and nothing else changes; it fails exactly when the pair is no edge, its bucket head is live and no column is free |
| EdgeTable.Table.Fasoar | extern/mefisto2/trte.c:815-918 | the map gains the pair with its triangles and line, or the existing record becomes what the triangles and the error codes 3 and 4 prescribe; error 1 exactly when no column is found |
| EdgeTable.Table.Sasoar | extern/mefisto2/trte.c:9077-9163 | an edge off the lines leaves the map and no other edge is lost; a line edge stays; an end that named it names the bucket head of that end, or else the first of the columns searched that is an edge of it with a triangle (which may be the edge that goes), or keeps its entry; other entries stay |
| EdgeTable.AttachExact | extern/mefisto2/trte.c:815-918 | on an edge in the table one triangle always gets its place; two do if and only if the first entry is free and the second is free or holds the second one, and otherwise the code is 3 or 4 as stated |
| EdgeTable.SpareRoom | extern/mefisto2/trte.c:606-666 | free columns and edges together are never fewer than the columns above the bucket heads |
| Exchange.Te2t2t | extern/mefisto2/trte.c:7583-7784 | triangles 123 and 142 become 143 and 234 and the mesh, bounds and vertex-to-edge array stay sound; line edges are never exchanged; if edge 34 already has a triangle the call fails and breaks the mesh, otherwise a refusal changes nothing and means a full table; two triangles on the same three corners leave no mesh |
| Mesh.FlipKeeps | extern/mefisto2/trte.c:7648-7784 | the exchange on values keeps the invariant of the mesh when the new diagonal lists no triangle |
| Mesh.OccupiedBreaks | extern/mefisto2/trte.c:7719-7745 | if the pair of opposite corners is an edge with a triangle, `fasoar_` refuses with 3 or 4 and leaves that edge listing a triangle that does not use it |
| Geometry.CentreEquidistant | extern/mefisto2/trte.c:1595-1645 | the centre `cenced_` computes is equally far from the three vertices |
| Geometry.EnergyDrop | extern/mefisto2/trte.c:2989-3047 | an exchange changes the sum of area times squared lengths by the area of 123 times the power of vertex 4 in its circle |
| Geometry.StrictlyConvex | extern/mefisto2/trte.c:3000-3024 | equal area sums and vertex 4 inside the circle of 123 make both new triangles strictly positive |
| Geometry.WantsExact | extern/mefisto2/trte.c:2989-3047 | on two positive triangles the tests choose exactly the diagonals of strictly convex quadrangles, neither thin nor flat, with vertex 4 nearer than vertices 1, 2 and 3 to a centre equally far from those: areas, distances and the constants only |
| Planar.ExchangeDisjoint | extern/mefisto2/trte.c:2989-3047 | a triangle without a common inner point with the old pair has none with the new ones |
| Delaunay.SwapEmbedded | extern/mefisto2/trte.c:2989-3047 | an exchange that passes the tests keeps all triangles positive and without common inner points |
| Delaunay.SwapEnergy | extern/mefisto2/trte.c:2989-3047 | such an exchange strictly lowers the energy of the whole triangulation |
| Delaunay.NeverOccupied | extern/mefisto2/trte.c:7719-7745 | in such a triangulation the opposite corners of an edge that passes the tests are never an edge with a triangle, so `te2t2t_` cannot break the mesh there |
| Tedela.Tedela | extern/mefisto2/trte.c:2864-3066 | the run ends; the mesh is sound, positive and disjoint with the same total area; no triangulation comes twice in it and no two exchanges in a row are in circles of one size; if no two candidate circles of the given vertices through different triples have one radius, and there are fewer edges than columns above the bucket heads, the result is locally Delaunay: of an edge off the lines whose quadrangle is strictly convex, neither thin nor flat, no circle through the near triangle has the far vertex inside; in any case an edge of which that is not so was turned down because its circle is as large as that of an exchange of the run or because the table was full |
| Tedela.EmptyEnergy | extern/mefisto2/trte.c:2989-3047 | exchanging such an edge with an empty circle does not lower the energy |
| Tedela.FlippedMeans | extern/mefisto2/trte.c:2989-3047 | every exchange of a run is of such a diagonal, with the far vertex inside a circle through the near triangle |
| Guard.GuardIdle | extern/mefisto2/trte.c:3028-3045 | after an exchange the three vertices of its circle are no triangle any more, so that under that condition the guard never fires |
| Guard.GeneralLone | extern/mefisto2/trte.c:3028-3045 | the condition holds when no two positive triples of vertices have circles of one radius |
| Tedela.Aisoar | extern/mefisto2/trte.c:2797-2860 | exactly the edges off the lines are chained, in the order of their columns; when there is none nothing is written in the table and the code writes past it |
| Tree.N1trva | extern/mefisto2/trte.c:1451-1530 | 0 exactly for a side on the border of the root; otherwise the triangle across that side of the ancestor `lhpile` levels up, and of the same size when there is one |
| Tree.FacingContains | extern/mefisto2/trte.c:1451-1530 | the side of that ancestor contains the side asked for |
| Quadtree.MidShared | extern/mefisto2/trte.c:10735-10781 | the middle of a side has a vertex exactly when the neighbour across it is subdivided, and it is then a corner of that neighbour's middle triangle |
| Quadtree.Quadtree.Te4ste | extern/mefisto2/trte.c:10671-10861 | subdivision keeps the tree, shares all middles, moves every point of the leaf to one of its four parts and takes four columns; errors 51 and 52 only when columns or vertices run out; no new vertex only when all three neighbours are subdivided |
| Quadtree.Quadtree.Notrpt | extern/mefisto2/trte.c:1313-1328 | the descent ends on a leaf, for any point, and on one that contains the point if the start does |
| Quadtree.Quadtree.Teajpt | extern/mefisto2/trte.c:1384-1408 | for every point, also coincident ones, the insertion ends, and only triangles that hold five points have been subdivided: the point has one leaf, or fewer than four columns are free (51) or no vertex (52) |
| Teajte.RootUpright | extern/mefisto2/trte.c:1867-1893 | the root is equilateral, stands on a base a wished length below the box of the points, passes the upper corners of the box at that distance on both sides, and contains the box |
| Teajte.ExtentTight | extern/mefisto2/trte.c:1797-1812 | that box is the smallest around the points and the box given |
| Teajte.SlimExact | extern/mefisto2/trte.c:1844-1866 | error 7 stands for a side under a ten thousandth of the diagonal |
| Teajte.Teajte | extern/mefisto2/trte.c:1719-1905 | with no error every point has its place in the tree, the vertices of the tree are numbered after the points, the given coordinates stay, and every triangle that is subdivided holds five points; 7 exactly when a side of the box of the points is less than a ten thousandth of its diagonal, 51 with fewer than four free columns, 52 with no free vertex |
| Teajte.SharedSide | extern/mefisto2/trte.c:10735-10842 | two triangles of one size across a side have the same two vertices on it |
| Teajte.SameVertex | extern/mefisto2/trte.c:10735-10842 | two corners in the tree have one vertex number exactly when they are the same lattice point, so no middle is made twice |
| Teajte.OneLeaf | extern/mefisto2/trte.c:1384-1407 | every inserted point is in exactly one slot of exactly one leaf, which contains it |
| Teajte.NoneAfterEmpty | extern/mefisto2/trte.c:8920-8975 | the slots of a leaf are filled from the front, so stopping at the first empty slot misses no point |
| Tehote.GoodKept | extern/mefisto2/trte.c:2238-2440 | subdividing a leaf whose three neighbours are subdivided unbalances no leaf already found good |
| Counting.ColumnsBound | extern/mefisto2/trte.c:10671-10861 | a tree with nb vertices has at most 1 + 8/3 nb triangles: a middle is shared by two subdivided triangles at most |
| Refining.Refine | extern/mefisto2/trte.c:2123-2170 | each given point gets a leaf around it whose corners are at most as far from it as wished |
| Refining.TamedMeans | extern/mefisto2/trte.c:2123-2170 | what that means in distances |
| Refining.NearKept | extern/mefisto2/trte.c:10671-10861 | no later subdivision takes that away |
| Tehote.Tehote | extern/mefisto2/trte.c:1989-2440 | on exit without error every leaf that passes the rectangle test is small enough and balanced against all its neighbours, and the leaves around the given points are as small as wished; no triangle is subdivided without one of the reasons of the code; what was subdivided stays so, and so is the middle triangle of a subdivided root; root, points and given coordinates stay; 51 with fewer than four free columns, and then at most 4 + 8/3 mxsomm columns in all, 52 with no free vertex, 7 only with a queue shorter than the tree |
| Tehote.GoodMeans | extern/mefisto2/trte.c:2290-2362 | a leaf that passes the test has a first side of at most 1.34 times the length wished for at each corner |
| Tehote.NeededMeans | extern/mefisto2/trte.c:2290-2412 | a triangle subdivided in a pass has a first side longer than that at some corner, or a subdivided neighbour |
| Tehote.QueueFits | extern/mefisto2/trte.c:2256-2290 | no triangle is twice in the queue; with the queue `aptrte` gives it, as long as the tree (extern/mefisto2/aptrte.cxx:443), error 7 cannot occur |
| Framing.LeafSides | extern/mefisto2/trte.c:2290-2362 | all triangles of the tree are equilateral, so that the bound of 1.34 holds for all three sides |
| Framing.AllFramed | extern/mefisto2/trte.c:2587-2616 | with at most eight points every leaf passes the rectangle test |
| Framing.LeafFramed | extern/mefisto2/trte.c:2587-2616 | for any number of points every leaf below the root that holds a place of the box of the points passes the test |
| Framing.RootInner | extern/mefisto2/trte.c:2587-2616 | with more than eight points the root is no leaf |
| Framing.FrameExact | extern/mefisto2/trte.c:2587-2617 | where the rectangle is for more than eight points |
| Framing.RectExact | extern/mefisto2/trte.c:2680-2702 | which ends of which sides the test looks at |
| Patch.PatchKeeps | extern/mefisto2/trte.c:815-918 | adding triangles on edges that have room for them keeps the mesh |
| Star.StarKeeps | extern/mefisto2/trte.c:7276-7401 | replacing a triangle by the three to a new vertex keeps the mesh, with those corners |
| Tr3str.Tr3str | extern/mefisto2/trte.c:7208-7401 | the same on the arrays, with the free list of triangles in order; errors 1 and 2 only for a full table and fewer than three free triangles |
| Templates.Build | extern/mefisto2/trte.c:8138-8373 | a template drawn by `fasoar_` calls keeps the mesh; which error it gives is decided by the free triangles and by the pairs, bucket heads and free columns of the table before the call |
| Leafmesh.TemplateBounds | extern/mefisto2/trte.c:7888-8574 | for every placement of middles the directed edges of the template add up to the border of the leaf with the middles in it |
| Leafmesh.TemplateTiles | extern/mefisto2/trte.c:7888-8574 | for every placement of middles the triangles are positive, have the area of the leaf in all and cover it |
| Trpite.PtdatrIn | extern/mefisto2/trte.c:1051-1245 | for a positive triangle `ptdatr_` tells exactly the points it contains |
| Trpite.FindTriangle | extern/mefisto2/trte.c:8920-8975 | a point of the leaf is always found in one of its triangles (error 3 does not occur) |
| Trpite.Ftrte | extern/mefisto2/trte.c:7787-8580 | every point of the leaf becomes a corner, and the leaf is meshed with one triangle more than its middles and two for each point, of its area, covering it, nothing else touched; errors 1 and 2 with the columns and triangles that lack, neither when there are nine columns and three a point; the error lost by `f2trte_` leaves a broken mesh and no error code, exactly when its sixth edge finds no column and the seventh does |
| Tiling.TemplateLies | extern/mefisto2/trte.c:7888-8574 | for every placement of middles the triangles of a template lie in the leaf and no two have an inner point in common |
| Tiling.StarApart | extern/mefisto2/trte.c:7276-7401 | the star of a point in a triangle keeps triangles apart, also when one of them is flat |
| Trpite.StarSharp | extern/mefisto2/trte.c:7276-7401 | it keeps all areas positive when the point is on no line through two corners |
| Regions.LeavesApart | extern/mefisto2/trte.c:10784-10842 | two leaves, of whatever sizes, have no inner point in common |
| Mosaic.OneLeft | extern/mefisto2/trte.c:2703-2789 | no directed side has two leaves on its left |
| Mosaic.RoomForLeaf | extern/mefisto2/trte.c:2703-2789 | whatever leaves are meshed already, every edge a leaf shares with them has room for its triangles |
| Paving.LaidNext | extern/mefisto2/trte.c:2703-2789 | with one leaf more every triangle still belongs to its leaf and no two have an inner point in common |
| Paving.PointsInNext | extern/mefisto2/trte.c:8920-8975 | the points whose leaf is meshed are corners of active triangles, and a further leaf leaves them so |
| Tetrte.Tetrte | extern/mefisto2/trte.c:2460-2795 | exactly the leaves that pass the rectangle test are meshed, each once, and their points are corners: the mesh is sound, every triangle lies in its leaf, no two have an inner point in common, their directed edges add up to the borders of the leaves with their middles, their areas to the areas of the leaves, and they cover them; all triangles are positive when no point is in line with two others of its leaf; 21 columns and 12 triangles for each column of the tree rule out errors 1, 2 and the lost edge; 5 only with a queue shorter than the tree |
| Tetrte.PavedEmbedded | extern/mefisto2/trte.c:2460-2795 | the mesh is one `tedela_` can work on if and only if no triangle is flat |
| Covered.HomeChosen | extern/mefisto2/trte.c:2587-2616 | the leaf of every given point passes the test, for any number of points |
| Covered.BoxChosen | extern/mefisto2/trte.c:2587-2616 | every place of the box of the points is in a leaf that passes the test |
| Conform.Matched | extern/mefisto2/trte.c:2374-2412 | among balanced leaves each side, with its middle, is a side of another leaf the other way, or on the rim |
| Rim.SingleExactly | extern/mefisto2/trte.c:2460-2795 | an edge of the mesh has one triangle only if and only if it is a side of a meshed leaf on the border of the root or across from a leaf outside the rectangle: no gap between leaves of different size |
| Rim.RimIsBorder | extern/mefisto2/trte.c:2609-2616 | when every leaf is meshed these are the sides on the border of the root |
| Aptrte.Plant | extern/mefisto2/aptrte.cxx:402-470 | `teajte_` and `tehote_` are started again with twice the columns at most once; the queue never overflows; the leaves of all given points pass the rectangle test; what is left is error 7, exactly for a slim box, and 52 |
| Aptrte.Background | extern/mefisto2/aptrte.cxx:402-493 | the stages up to `tetrte_` together, from the points and the edges of the lines: all of the above about the mesh, every given point is a corner of an active triangle, every place of their box is in a triangle with area, every edge without a line has a triangle, and it is a triangulation for `tedela_` when no point is in line with two others of its leaf |
| Aptrte.EdgeOff | extern/mefisto2/trte.c:2797-2860 | with one leaf meshed, which is always so, there is an edge off the lines, so that `aisoar_` does not write past the table |
| Aptrte.Relax | extern/mefisto2/aptrte.cxx:503-508 | `aisoar_` and `tedela_` on that mesh keep it sound, positive and of the same area, and leave it locally Delaunay under the conditions of `Tedela.Tedela` |
| Triangles.Trcf3a | extern/mefisto2/trte.c:6080-6210 | three edges become one active, closed triangle with the given corners, which they list |
| Contours.CutConserves | extern/mefisto2/trte.c:6312-6423 | a cut at three corners conserves every odd quantity of directed edges, in all four cases |
| Contours.CutWork | extern/mefisto2/trte.c:6312-6423 | it lowers the sum over contours of (edges - 2) by exactly one, and leaves no contour shorter than three |
| Trcf.Trcf3s | extern/mefisto2/trte.c:6219-6423 | the last contour becomes the pieces of the cut, one triangle with the corners is written, and contours and free list stay disjoint with no slot lost |
| Trcf.Trcf0a | extern/mefisto2/trte.c:5669-5750 | the contour is divided in three in place |
| Joining.RoundsOnce | extern/mefisto2/trte.c:6576-6709 | the first loop of `tridcf_` is determined by the first edges of the contours and the list of isolated vertices |
| Joining.OneContour | extern/mefisto2/trte.c:6576-6709 | one contour takes in at most one isolated vertex: afterwards its first edge ends in the last one, which it does not see |
| Joining.NearestMeans | extern/mefisto2/trte.c:6600-6650 | the vertex picked is on the inner side of the edge and none such is nearer |
| Tridcf.JoinAll | extern/mefisto2/trte.c:6576-6709 | the loop is a run of such rounds; it ends with 9 when no first edge sees a vertex, with a negative vertex number when one does and the last is crossed off, and with 6, 7, 8 and 10 only when columns, triangles, notrcf or slots are too few for the isolated vertices |
| Choosing.Trchtd | extern/mefisto2/trte.c:5211-5533 | a shortest edge of the last contour and, of the vertices whose sides cross no edge it looks at, one of the best quality up to the tolerance of the code; the last vertex when there is none |
| Choosing.PreferredMeans | extern/mefisto2/trte.c:5211-5533 | what that means: no edge of the contour is shorter, and no such vertex makes a triangle of more than the quality of that taken, up to the tolerances |
| Sketching.CutPositive | extern/mefisto2/trte.c:5333-5424 | the triangle cut off is positive whenever one of those vertices makes a positive triangle |
| Tridcf.Tridcf | extern/mefisto2/trte.c:6427-6898 | on success the triangles number the sum of (n - 2) plus two for each isolated vertex, carry every odd quantity of the contours, and are listed by all their sides; all contour slots are free again; with one contour success means at most one isolated vertex; every triangle is one `trchtd_` may choose; each error with its cause, and only 5, 9 and the negative number are left when columns, triangles and slots suffice before the call; without isolated vertices and on simple contours with free diagonals 5 does not occur either and the mesh keeps its invariant |
| Sketching.CutKeeps | extern/mefisto2/trte.c:6731-6793 | contours without a repeated vertex that meet in one vertex at most, with free diagonals, stay so when a triangle is cut off, and the mesh keeps its invariant |
| Tridcf.AreaFilled | extern/mefisto2/trte.c:6731-6793 | their signed areas add up to the area the contours enclose |
| Tridcf.SidesMatch | extern/mefisto2/trte.c:6731-6793 | a side that is no contour edge is run as often one way as the other |
| Tridcf.IntegratesAll | extern/mefisto2/trte.c:6600-6709 | all isolated vertices become corners if and only if there is at most one |
| Etoile.Caetoi | extern/mefisto2/trte.c:9229-9285 | an edge seen once joins the chain in front, seen again it leaves the chain and, off the lines, the table; it fails exactly when at least 513 edges of the chain come before it |
| Etoile.Gather | extern/mefisto2/trte.c:9409-9491 | after all sides of the triangles the chain holds the edges used by one of them and carries what the triangles carry; 17 exactly when some side comes late in the chain |
| Etoile.FewTriangles | extern/mefisto2/trte.c:9229-9285 | up to 171 triangles no side does |
| Focftr.Focftr | extern/mefisto2/trte.c:9289-9734 | the contour is the walk over simple edges, put in slots 1 to nbarcf as a ring; exactly the given triangles go to the free list; the lost vertices are the corners off the contour that must stay; each error code with its cause |
| Focftr.OrderCloses | extern/mefisto2/trte.c:9568-9664 | when each vertex of the simple edges has two of them the walk comes back, so error 14 does not occur, and passes each vertex once |
| Focftr.OrderAll | extern/mefisto2/trte.c:9568-9664 | when the simple edges are one closed curve the walk takes all of them, and the contour carries every odd quantity of the removed triangles |
| Curves.OrderExact | extern/mefisto2/trte.c:9568-9664 | the walk takes all simple edges, comes back and passes each vertex once if and only if the simple edges are one closed curve |
| Focftr.RingPath | extern/mefisto2/trte.c:9600-9664 | the slots are a ring that the contour operations accept |
| Focftr.LostInside | extern/mefisto2/trte.c:9679-9715 | for one closed curve the vertices handed back are exactly the corners inside that must not go |
| Refill.LooseMesh | extern/mefisto2/trte.c:9430-9491 | after `focftr_` the rest is a mesh if and only if no line edge lay between two of the removed triangles |
| Refill.HoleFilled | extern/mefisto2/trte.c:6731-6793 | the triangles `tridcf_` puts in the hole have the signed area, and every odd quantity, of those removed |
| Refill.HoleSketch | extern/mefisto2/trte.c:9289-9734 | after `focftr_` on one closed curve, with no line edge between two removed triangles and no triangle on a diagonal of the contour, mesh and contour are as `tridcf_` needs them to end without an error and with a mesh |
| Emit.EmitKeeps | extern/mefisto2/trte.c:6080-6210 | `trcf3a_` on edges with room keeps the mesh, also where an edge lists its triangle twice |
| Tesuex.CleanUp | extern/mefisto2/trte.c:3548-3653 | the triangles left are those with a positive mark, numbered in order; edges, vertex marks and vertex-to-edge array follow; the mesh invariant holds again |
| Tesuex.CleanMesh | extern/mefisto2/trte.c:3615-3653 | no edge lists a removed triangle and each lists all of its others |
| Tesuex.FirstPlace | extern/mefisto2/trte.c:3615-3653 | an edge with one triangle left holds it in position 4 if and only if it did not hold it in position 5 alone before |
| Tesuex.OutsideExactly | extern/mefisto2/trte.c:3548-3612 | a vertex ends marked outside exactly when it was not given and no triangle left has it; a used vertex names an edge of a triangle left |
| Ranks.RankBijection | extern/mefisto2/aptrte.cxx:629-653 | the renumbering is a bijection onto 1..nbst that keeps the order |
| Output.CodeExact | extern/mefisto2/aptrte.cxx:321-321 | the code 1000000*n + k leads back to vertex k of line n if and only if k is below a million or the last of exactly a million |
| Output.CodeLine | extern/mefisto2/aptrte.cxx:268-321 | it does for all vertices of a line if and only if there are at most a million |
| Output.Export | extern/mefisto2/aptrte.cxx:629-714 | vertices, coordinates and triangles are written so that the tables describe the mesh |
| Output.OutputCorner | extern/mefisto2/aptrte.cxx:696-714 | each entry of `nust` leads to the corner of its triangle, with its restored coordinates |
| Output.OutputInRange | extern/mefisto2/aptrte.cxx:696-714 | all entries are output vertex numbers |
| Output.BoundaryKept | extern/mefisto2/aptrte.cxx:660-692 | without a gap in the numbering, boundary vertex s is output vertex s with the coordinates it was given |
| Output.NodesExact | extern/mefisto2/StdMeshers_MEFISTO_2D.cxx:792-823 | the nodes of the result are the right ones if and only if no given vertex is left out before a vertex in use |
| Output.StoreResult | extern/mefisto2/StdMeshers_MEFISTO_2D.cxx:780-845 | each output vertex has its node; the faces are those of the triangles kept, in order: the nodes of corners 0, 1, 2 on a forward face and 0, 2, 1 on another; left out are exactly the triangles with two equal nodes, on a surface with degenerate edges only |
| Output.FacesAll | extern/mefisto2/StdMeshers_MEFISTO_2D.cxx:803-841 | without degenerate edges there are as many faces as triangles, the k-th of the k-th |
| Output.FaceNodes | extern/mefisto2/StdMeshers_MEFISTO_2D.cxx:792-841 | without a gap the face of an active triangle joins the nodes of its own three vertices, turned as the face is |
| Output.NodeExact | extern/mefisto2/StdMeshers_MEFISTO_2D.cxx:785-801 | a given node serves its own vertex, an added one lies at the vertex's coordinates divided by the scales |
| Output.CornerNode | extern/mefisto2/StdMeshers_MEFISTO_2D.cxx:814-823 | then every corner of every face is the node of its own vertex |
| Satisfied.ParallelMet | extern/planegcs/Constraints.cpp:1128-1134 | the error is twice the scaled area between the directions, and 0 if and only if one is a multiple of the other or 0 |
| Satisfied.PerpendicularMet | extern/planegcs/Constraints.cpp:1214-1220 | it is 0 if and only if the squares of the two directions add up to that of their difference |
| Satisfied.TangentMet | extern/planegcs/Constraints.cpp:1493-1538 | it is 0 if and only if the centres are as far apart as the sum, or difference, of the radii; for concentric circles, if the radii are equal |
| Satisfied.DifferenceMet | extern/planegcs/Constraints.cpp:641-644 | it is 0 if and only if the second parameter is the first plus the difference |
| Satisfied.CentreMet | extern/planegcs/Constraints.cpp:233-241 | it is 0 if and only if the points balance about the centre, the origin carrying what the weights lack to 1 |
| Satisfied.CombinationMet | extern/planegcs/Constraints.cpp:160-175 | it is 0 if and only if the poles with their weights times factors balance about the point |
| Satisfied.SlopeExact | extern/planegcs/Constraints.cpp:336-378 | the slope is that of the weighted mean: the difference quotient times the weight sums, for every step |
| Satisfied.SlopeMet | extern/planegcs/Constraints.cpp:336-378 | the error is 0 if and only if the slope and the line are parallel |
| Constraints.ParallelExact | extern/planegcs/Constraints.cpp:1128-1167 | under every aliasing error(x+h) is error(x) + h grad(x) + h² times a number that depends on the aliasing alone |
| Constraints.PerpendicularExact | extern/planegcs/Constraints.cpp:1214-1253 | the same for two perpendicular lines |
| Constraints.TangentExact | extern/planegcs/Constraints.cpp:1493-1566 | the same for tangent circles that are not concentric |
| Constraints.TangentNear | extern/planegcs/Constraints.cpp:1500-1538 | for concentric circles `grad` is exact if and only if the pointer is not that of both radii |
| Constraints.DifferenceExact | extern/planegcs/Constraints.cpp:641-659 | `grad` is exact under every aliasing |
| Constraints.CentreExact | extern/planegcs/Constraints.cpp:233-258 | `grad` is exact if and only if the factors of all places of the pointer add up to that of its last place |
| Constraints.CentreSingle | extern/planegcs/Constraints.cpp:233-258 | so it is for a pointer with at most one place |
| Constraints.Constraint.RedirectParams | extern/planegcs/Constraints.cpp:58-68 | pointers in the map are replaced by place of their originals, the others stay as they are, and the change is marked |
| Splines.CombinationExact | extern/planegcs/Constraints.cpp:160-208 | `grad` is exact for every change if and only if the slope of the first place found is the sum of the slopes of all places and no second order is left |
| Splines.CombinationSingle | extern/planegcs/Constraints.cpp:160-208 | both hold for a pointer with at most one place, for any number of poles |
| Splines.KnotWeightExact | extern/planegcs/Constraints.cpp:336-420 | `grad` is exact in every weight with one place, for any number of poles: the squares cancel |
| Splines.KnotPoleExact | extern/planegcs/Constraints.cpp:381-404 | `grad` is exact in a pole if and only if its weight is 1, or the scale, the slope of the pole or the component of the direction is 0 |
| Cases.SixthEdgeLost | extern/mefisto2/trte.c:8315-8323 | a table of more than three columns a vertex on which `f2trte_` reports no error and leaves no mesh |
| Flat.PointOnSide | extern/mefisto2/trte.c:7787-7925 | a leaf with a point on one of its sides, of which `f0trte_` with room for everything makes a triangle without area and no error |
| Cases.EqualCircles | extern/mefisto2/trte.c:3028-3045 | two equal flat rhombs on which every run ends with a diagonal that wants the exchange |
| Cases.FourthSideTaken | extern/mefisto2/trte.c:7719-7745 | a mesh on which `te2t2t_` breaks the edge between the opposite corners |
| Unjoined.SecondTakenTwice | extern/mefisto2/trte.c:6600-6709 | a run of the first loop of `tridcf_` on two contours and two isolated vertices: no error, the second vertex in both contours, the first in none |
| Unjoined.LeftOut | extern/mefisto2/trte.c:6427-6898 | a whole run there ends with error 5, or without an error and without the first vertex |
| Holes.StillActive | extern/mefisto2/trte.c:9669-9680 | with more than 512 corners `focftr_` leaves triangles active that their edges do not list: no mesh |
| Holes.OtherBorder | extern/mefisto2/trte.c:9568-9664 | two triangles apart whose removal gives a contour that closes, with simple edges left over |
| Holes.ApartNoError | extern/mefisto2/trte.c:9289-9734 | none of the other errors of `focftr_` occurs there |
| Holes.LineKept | extern/mefisto2/trte.c:9430-9491 | two triangles on either side of a line edge whose removal leaves no mesh |
| Cases.GivenLeftOut | extern/mefisto2/StdMeshers_MEFISTO_2D.cxx:792-823 | a numbering under which a vertex gets the node of another |
| Cases.CentreOfTwo | extern/planegcs/Constraints.cpp:233-258 | a repeated point for which `grad` is half the change |
| Cases.OneRadius | extern/planegcs/Constraints.cpp:1500-1538 | concentric circles with one radius for which `grad` is 1 and the change 0 |
| Splines.CombinationEqualPoles | extern/planegcs/Constraints.cpp:160-208 | two equal poles for which `grad` is half the change |
| Splines.KnotPoleTwice | extern/planegcs/Constraints.cpp:381-404 | a pole of weight 2 for which `grad` is half the change |

## Findings

What the proofs found the code to do, where it is not what the code is for.

- `tedela_` guards against endless loops by comparing squared radii only: an edge met right after an
  exchange in another circle of the same size is turned down and not looked at again
  (extern/mefisto2/trte.c:3028-3045; `Tedela.Tedela`), so that of two equal rhombs only one is
  exchanged (`Cases.EqualCircles`). Over the reals the guard is not needed. Where the candidate
  circles of the given vertices have different radii nothing is turned down (`Guard.GuardIdle`).
- `te2t2t_` called where the opposite corners already are an edge with a triangle breaks that edge
  (`Exchange.Te2t2t`, `Cases.FourthSideTaken`); after the tests of `tedela_` it cannot happen.
- `f2trte_` does not look at the error of its sixth `fasoar_` (extern/mefisto2/trte.c:8315-8323);
  `Trpite.Ftrte` gives exactly when that loses an edge, and `Cases.SixthEdgeLost` shows it on a
  table of 24 vertices and 73 columns, more than the three columns a vertex that the comments ask
  for. There must be at most five free columns for it (`Trpite.SixthSpare`).
- A point on a side of the triangle that takes it in makes a triangle without area (`Flat.PointOnSide`), which
  `tedela_` does not expect; it cannot happen where no point is in line with two others of its leaf (`Trpite.StarSharp`).
- `tridcf_` integrates the last isolated vertex instead of the nearest, which it crosses off
  (extern/mefisto2/trte.c:6600-6709): with two or more, one contour always ends in an error
  (`Joining.OneContour`), and with several the vertices can all be crossed off without an error
  and without all taken in (`Unjoined.SecondTakenTwice`, `Tridcf.IntegratesAll`). When the last
  is crossed off already the code goes on with a negative number, here the error -1.
- When no vertex of a contour can be joined to its shortest edge without crossing, `trchtd_` takes
  the last one all the same (`Choosing.Trchtd`).
- `sasoar_` may leave a vertex naming the edge it removes, which its own search finds
  (`EdgeTable.Table.Sasoar`); `aisoar_` writes past the table when no edge is off the lines.
- `focftr_` returns without an error and without freeing the triangles when there are more than 512
  corners (extern/mefisto2/trte.c:9669-9680; `Holes.StillActive`), keeps no mesh when a line edge lies
  between two of the triangles (`Refill.LooseMesh`, `Holes.LineKept`), reads column 0 when there is
  no simple edge (here the error -1), and does not report simple edges left over (`Holes.OtherBorder`).
- An edge that loses its first triangle to `focftr_` lists the other one twice; this is harmless,
  since the next triangle takes the second place (`Emit.EmitKeeps`).
- Nodes are given by position, so that `StoreResult` is wrong as soon as a boundary vertex is not in
  use (`Output.NodesExact`, `Cases.GivenLeftOut`).
- `grad` of the centre of gravity, of the weighted linear combination and of concentric tangent
  circles counts one place of a repeated pointer; `grad` of the slope at a knot leaves out the weight of the pole.
- The comments of `trte.c` give an old hash formula; the code uses the smaller vertex
  (extern/mefisto2/trte.c:8655-8657), and the model follows the code. `te2t2t_` passes an unset
  bound to `sasoar_`, here 0; the vertex-to-edge array is set again at its end.

## Left out

- Tedela.Tedela: the tolerances of the code (1e-15 of the area, 1e-10 in `cenced_`) are read as exact
  equality over the reals, and a mesh of positive triangles without common inner points is required; `Aptrte.Background`
  delivers one unless a triangle is flat.
- Exchange.Te2t2t: an edge without two triangles is excluded: the code then reads column -1 or 0 of `noartr`.
- Tedela.Aisoar: the write past the table, when there is no edge off the lines, is left out.
- Tedela.Tedela: the redundant test for a freed triangle, which never occurs in a sound mesh, is omitted.
- Trpite.PtdatrIn: the tolerances of `ptdatr_` are read as exact comparisons.
- Trpite.Ftrte: after the lost edge the code goes on inserting the points of the leaf, reading column 0; the model stops.
- Tree.N1trva: the stack of 64 entries is unbounded.
- Tehote.Tehote: the wanted lengths (`tetaid_`, `areteideale_`, the third row of `pxyd`) are parameters, and errors of
  `tetaid_` are left out; the rectangle is a parameter, which `Aptrte.Plant` computes as the code does.
- Tehote.Tehote: the tree has more than two columns; with two the code would take the free column 2 for a leaf.
- Aptrte.Plant: there is room for at least four vertices; the code makes room for 20000 (extern/mefisto2/aptrte.cxx:181).
- Tetrte.Tetrte: stops at a lost edge, as `Trpite.Ftrte` does, where the code goes on with the next leaf.
- Trpite.StarSharp: sufficient, not necessary: whether a triangle is flat depends on the order of the points.
- Aptrte.Background: the edges of the lines, entered before by `fasoar_`, are an input, and so are the sizes of the arrays.
- Teajte.Teajte: the square root of 3 is a parameter; the wanted length is positive.
- Tridcf.Tridcf: `diptdr_`, `qutr2d_` and `int2ar_`, which need square roots, are parameters, the quality never
  negative and positive on positive triangles; printing and area checks are omitted. That the mesh keeps its invariant
  is stated for runs without isolated vertices: after a vertex is joined to an edge a later triangle on that edge as a
  diagonal overwrites one already listed, which ends in error 5 (`fasoar_` on a chord that is an edge between two
  triangles erases both).
- Choosing.Trchtd: of several vertices of the best quality any is taken; the code compares their circles. The largest
  real of the machine is taken as longer than any edge.
- Tridcf.IntegratesAll: says which vertices become corners, not that they lie inside the contour that takes them in.
- Focftr.Focftr: early returns leave the table as it is then, of which only its soundness as a table is stated.
- Splines.KnotWeightExact: the direction of the line, which needs a square root, is a parameter, and so is every scale
  set by `rescale`; the branches of `grad` for the ends of the line are not modelled.
- Output.CodeExact: the width of the integer type `Z`; with 32 bits more than 2146 lines overflow.
- Mesh.FlipKeeps: the exchange on values alone, without the line guard, the refusal and the vertex-to-edge array,
  which `Exchange.Te2t2t` has.
- Output.StoreResult: geometry, node creation and the removal of bad elements on common vertices are outside.
- `trp1st_` and the quality passes built on it (`teamqa_`, `te1stm_`, `tesusp_`, `tesuqm_`).
- `tefoar_`, `terefr_`, `trfrcf_` and `int1sd_`: forcing of boundary edges, driven by tolerances.
- The flood fill of `tesuex_`; its marks are an input of `Tesuex.CleanUp`.
- `tritas_` (heap sort), and the enumeration of edges on the boundary by `aptrte` apart from the codes.
- Memory allocation, the restart with twice the vertices, timing and printing of `aptrte`.
- `GCS.h` and the solver, the trigonometric and square-root constraints, and `ConstraintEqual` with a ratio.
- Everything in `ci/`, `benchmark/` and `examples/`.
